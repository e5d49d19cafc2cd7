// The add-warehouse dialog (components/add-warehouse-modal.tsx): the typed
// name is trimmed, rejected when blank or when it matches an existing
// warehouse's name ignoring case, and otherwise handed to the store.
module AddWarehouse {
  import opened Seqs
  import opened Types
  import opened Text

  const NameRequired: string := "Warehouse name is required"
  const NameTaken: string := "A warehouse with this name already exists"

  datatype Outcome = Rejected(error: string) | Accepted(name: string)

  /** The test inside `existingWarehouses.some(...)`. */
  function SameName(name: string): Warehouse -> bool
  {
    (w: Warehouse) => ToLower(w.name) == ToLower(Trim(name))
  }

  /** `existingWarehouses.some(...)`. */
  predicate Taken(existing: seq<Warehouse>, name: string)
  {
    FindIndex(existing, SameName(name)) >= 0
  }

  /**
   * `handleSubmit`'s decision. The blank check comes first, so a blank name
   * is never reported as taken; an accepted name is the trimmed text, is not
   * blank, and clashes with no existing name in any letter case.
   */
  function Validate(existing: seq<Warehouse>, name: string): (r: Outcome)
    ensures r == Rejected(NameRequired) <==> Trim(name) == ""
    ensures r == Rejected(NameTaken) <==>
      Trim(name) != "" && exists i :: 0 <= i < |existing| && ToLower(existing[i].name) == ToLower(Trim(name))
    ensures r.Rejected? || r == Accepted(Trim(name))
    ensures r.Accepted? ==> r.name != "" && forall i :: 0 <= i < |existing| ==> ToLower(existing[i].name) != ToLower(r.name)
  {
    if Trim(name) == "" then Rejected(NameRequired)
    else if Taken(existing, name) then Rejected(NameTaken)
    else Accepted(Trim(name))
  }

  /** Surrounding blanks make no difference to the decision. */
  lemma ValidateTrimmed(existing: seq<Warehouse>, name: string)
    ensures Validate(existing, Trim(name)) == Validate(existing, name)
  {
    TrimIdempotent(name);
  }

  /** No two names are equal ignoring case. */
  ghost predicate CaseDistinct(warehouses: seq<Warehouse>)
  {
    forall i, j :: 0 <= i < j < |warehouses| ==> ToLower(warehouses[i].name) != ToLower(warehouses[j].name)
  }

  /**
   * Adding an accepted name keeps the names distinct ignoring case, and
   * submitting the same name again is then rejected as taken.
   */
  lemma AcceptedStaysDistinct(existing: seq<Warehouse>, name: string, id: string)
    requires CaseDistinct(existing)
    requires Validate(existing, name).Accepted?
    ensures var added := existing + [Warehouse(id, Trim(name), 0)];
      CaseDistinct(added) && Validate(added, name) == Rejected(NameTaken)
  {
    var added := existing + [Warehouse(id, Trim(name), 0)];
    TrimIdempotent(name);
    assert ToLower(added[|existing|].name) == ToLower(Trim(name));
  }

  class AddWarehouseModal {
    var name: string
    var error: string

    constructor ()
      ensures name == "" && error == ""
    {
      name, error := "", "";
    }

    /** The input's `onChange`: the new text, and any error cleared. */
    method SetName(value: string)
      modifies this
      ensures name == value && error == ""
    {
      name := value;
      error := "";
    }

    /**
     * `handleSubmit`: on rejection the error shows and nothing is added; on
     * acceptance the trimmed name is returned for `onAddWarehouse`.
     */
    method Submit(existing: seq<Warehouse>) returns (added: Option<string>)
      modifies this
      ensures name == old(name)
      ensures Validate(existing, old(name)).Rejected? ==> added == None && error == Validate(existing, old(name)).error
      ensures Validate(existing, old(name)).Accepted? ==> added == Some(Validate(existing, old(name)).name) && error == old(error)
    {
      var trimmed := Trim(name);
      if trimmed == "" {
        error := NameRequired;
        return None;
      }
      if Taken(existing, name) {
        error := NameTaken;
        return None;
      }
      added := Some(trimmed);
    }
  }
}
