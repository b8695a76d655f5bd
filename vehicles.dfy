/**
 * The add-vehicle form of src/components/VehiclesManager.jsx: the check of
 * the typed alias and plate, the vehicle submitted (trimmed alias, plate in
 * upper case, owner) and the form fields, which go back to their defaults
 * only when the vehicle was stored.
 */
module Vehicles {
  import opened Wrappers
  import opened Text

  const PERSONAL: string := "personal"
  const OWN_VEHICLE: string := "Propio"

  /** What `handleSubmit` hands to `addVehicle`. */
  datatype NewVehicle = NewVehicle(alias: string, plate: string, owner: string)

  /**
   * `handleSubmit`'s check and normalisation: nothing when the alias or the
   * plate is blank; otherwise the trimmed alias, the plate upper-cased and
   * trimmed, and 'Propio' as owner of a personal vehicle or else the typed
   * owner name.
   */
  function Normalize(alias: string, plate: string, ownerType: string, ownerName: string): (r: Option<NewVehicle>)
    ensures r.None? <==> IsBlank(alias) || IsBlank(plate)
    ensures r.Some? ==> r.value.alias == Trim(alias) && r.value.plate == ToUpper(Trim(plate))
    ensures r.Some? && ownerType == PERSONAL ==> r.value.owner == OWN_VEHICLE
    ensures r.Some? && ownerType != PERSONAL ==> r.value.owner == ownerName
  {
    if IsBlank(alias) || IsBlank(plate) then None
    else
      TrimUpperCommute(plate);
      Some(NewVehicle(Trim(alias), Trim(ToUpper(plate)), if ownerType == PERSONAL then OWN_VEHICLE else ownerName))
  }

  /** The vehicle submitted has a non-blank alias and plate with no surrounding whitespace. */
  lemma NormalizedFieldsTrimmed(alias: string, plate: string, ownerType: string, ownerName: string)
    requires Normalize(alias, plate, ownerType, ownerName).Some?
    ensures var v := Normalize(alias, plate, ownerType, ownerName).value;
            NonBlankTrimmed(v.alias) && NonBlankTrimmed(v.plate)
  {
    UpperKeepsEnds(Trim(plate));
  }

  /** Not empty, and neither starting nor ending with whitespace. */
  predicate NonBlankTrimmed(s: string) {
    s != [] && !IsJsWhitespace(s[0]) && !IsJsWhitespace(s[|s| - 1])
  }

  /** Upper-casing keeps a text's first and last characters non-whitespace. */
  lemma UpperKeepsEnds(t: string)
    requires NonBlankTrimmed(t)
    ensures NonBlankTrimmed(ToUpper(t))
  {
    UpperKeepsWhitespace(t[0]);
    UpperKeepsWhitespace(t[|t| - 1]);
  }

  /** Typing the submitted vehicle back into the form submits the same vehicle. */
  lemma NormalizeIdempotent(alias: string, plate: string, ownerType: string, ownerName: string)
    requires Normalize(alias, plate, ownerType, ownerName).Some?
    ensures var v := Normalize(alias, plate, ownerType, ownerName).value;
            Normalize(v.alias, v.plate, ownerType, ownerName) == Some(v)
  {
    var v := Normalize(alias, plate, ownerType, ownerName).value;
    TrimIdempotent(alias);
    TrimIdempotent(plate);
    TrimUpperCommute(Trim(plate));
    ToUpperIdempotent(Trim(plate));
    TrimUpperCommute(v.plate);
    NormalizedFieldsTrimmed(alias, plate, ownerType, ownerName);
  }

  /** The form's fields. */
  class VehicleForm {
    var alias: string
    var plate: string
    var ownerType: string
    var ownerName: string

    /** The fields as the form first shows them. */
    predicate Cleared()
      reads this
    {
      alias == "" && plate == "" && ownerType == PERSONAL && ownerName == ""
    }

    constructor()
      ensures Cleared()
    {
      alias := "";
      plate := "";
      ownerType := PERSONAL;
      ownerName := "";
    }

    /**
     * `handleSubmit`: submit the normalised vehicle when the check passes;
     * `stored` is what `addVehicle` reports. The fields are cleared only
     * when a vehicle was submitted and stored.
     */
    method Submit(stored: bool) returns (submitted: Option<NewVehicle>)
      modifies this
      ensures submitted == Normalize(old(alias), old(plate), old(ownerType), old(ownerName))
      ensures submitted.Some? && stored ==> Cleared()
      ensures !(submitted.Some? && stored) ==> unchanged(this)
    {
      submitted := Normalize(alias, plate, ownerType, ownerName);
      if submitted.Some? && stored {
        Clear();
      }
    }

    /** `setAlias('')`, `setPlate('')`, `setOwnerType('personal')`, `setOwnerName('')`. */
    method Clear()
      modifies this
      ensures Cleared()
    {
      alias, plate, ownerType, ownerName := "", "", PERSONAL, "";
    }
  }
}
