/** The closed set of account roles and their wire names. */
module Roles {
  import opened Wrappers

  datatype Role = Admin | Dentist | Patient

  /** The role's string in requests, tokens and the database. */
  function Name(r: Role): string {
    match r
    case Admin => "Admin"
    case Dentist => "Dentist"
    case Patient => "Patient"
  }

  /** `isIn(['Admin', 'Dentist', 'Patient'])`, keeping the role it names. */
  function Parse(s: string): (r: Option<Role>)
    ensures r.Some? ==> Name(r.value) == s
    ensures r.None? ==> forall x: Role :: Name(x) != s
  {
    if s == "Admin" then Some(Admin)
    else if s == "Dentist" then Some(Dentist)
    else if s == "Patient" then Some(Patient)
    else None
  }
}
