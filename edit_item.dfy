// The single-item edit dialog (components/edit-item-modal.tsx): the form
// starts from the item's own values, and submitting a complete form yields
// the item with the edited fields, its id and timestamp kept.
module EditItem {
  import opened Types
  import opened Text

  /** `formData`: every field as the text in its input. */
  datatype ItemForm = ItemForm(name: string, sku: string, quantity: string, location: string, category: string)

  datatype FormField = NameField | SkuField | QuantityField | LocationField | CategoryField

  /** The form's initial state: the quantity in decimal, a missing category as "". */
  function InitialForm(item: Item): (r: ItemForm)
    ensures r.name == item.name && r.sku == item.sku && r.location == item.location
    ensures ParseInt(r.quantity) == Some(item.quantity)
    ensures r.category == "" <==> item.category.None? || item.category == Some("")
    ensures item.category.Some? ==> r.category == item.category.value
  {
    ParseIntOfNatToString(item.quantity);
    ItemForm(item.name, item.sku, NatToString(item.quantity), item.location,
             if item.category.Some? then item.category.value else "")
  }

  /** The guard of `handleSubmit`: name, SKU, quantity and location are all filled in. */
  predicate Complete(f: ItemForm)
  {
    f.name != "" && f.sku != "" && f.quantity != "" && f.location != ""
  }

  /** A quantity text that is typed is one `parseInt` reads a number from. */
  predicate QuantityReadable(f: ItemForm)
  {
    f.quantity != "" ==> ParseInt(f.quantity).Some?
  }

  /**
   * `handleSubmit`: nothing when a required field is empty; otherwise the
   * item with the form's values, an empty category cleared, and the id and
   * `lastUpdated` left as they were.
   */
  function Submitted(item: Item, f: ItemForm): (r: Option<Item>)
    requires QuantityReadable(f)
    ensures r.None? <==> !Complete(f)
    ensures r.Some? ==>
      && r.value.id == item.id && r.value.lastUpdated == item.lastUpdated
      && r.value.name == f.name && r.value.sku == f.sku && r.value.location == f.location
      && Some(r.value.quantity) == ParseInt(f.quantity)
      && r.value.category == (if f.category == "" then None else Some(f.category))
  {
    if !Complete(f) then None
    else Some(item.(name := f.name, sku := f.sku, quantity := ParseInt(f.quantity).value,
                    location := f.location, category := if f.category == "" then None else Some(f.category)))
  }

  /** Submitting the untouched form gives back the item itself. */
  lemma UntouchedFormRoundTrip(item: Item)
    requires item.name != "" && item.sku != "" && item.location != ""
    requires item.category != Some("")
    ensures QuantityReadable(InitialForm(item))
    ensures Submitted(item, InitialForm(item)) == Some(item)
  {
    var r := Submitted(item, InitialForm(item));
    assert r.value.quantity == item.quantity;
  }

  /** An item with an empty-string category comes back with no category. */
  lemma EmptyCategoryCleared(item: Item)
    requires item.name != "" && item.sku != "" && item.location != ""
    requires item.category == Some("")
    ensures QuantityReadable(InitialForm(item))
    ensures Submitted(item, InitialForm(item)) == Some(item.(category := None))
  {
    var r := Submitted(item, InitialForm(item));
    assert r.value.quantity == item.quantity;
  }

  class EditItemModal {
    const item: Item
    var form: ItemForm

    constructor (item: Item)
      ensures this.item == item && form == InitialForm(item)
    {
      this.item := item;
      form := InitialForm(item);
    }

    /** The `onChange` of one input: that field takes the typed text. */
    method Edit(field: FormField, value: string)
      modifies this
      ensures form == match field
        case NameField => old(form).(name := value)
        case SkuField => old(form).(sku := value)
        case QuantityField => old(form).(quantity := value)
        case LocationField => old(form).(location := value)
        case CategoryField => old(form).(category := value)
    {
      match field
      case NameField => form := form.(name := value);
      case SkuField => form := form.(sku := value);
      case QuantityField => form := form.(quantity := value);
      case LocationField => form := form.(location := value);
      case CategoryField => form := form.(category := value);
    }

    /** `handleSubmit`: the record passed to `onUpdateItem`, or nothing when the form is incomplete. */
    method Submit() returns (updated: Option<Item>)
      requires QuantityReadable(form)
      ensures updated == Submitted(item, form)
    {
      if form.name == "" || form.sku == "" || form.quantity == "" || form.location == "" {
        return None;
      }
      var category := if form.category == "" then None else Some(form.category);
      updated := Some(item.(name := form.name, sku := form.sku, quantity := ParseInt(form.quantity).value,
                            location := form.location, category := category));
    }
  }
}
