/**
 * The stored implant passport (the `Passport` schema): its enumerations, the
 * schema's required-value checks, its `trim` setters, and the registry of
 * stored passports.
 */
module Passports {
  import opened Wrappers
  import opened Text
  import opened Dates
  import Tokens
  import Store

  type UserId = Tokens.UserId

  datatype ImplantType = TitanioStandard | TitanioPremium | Ceramica | Zirconia

  function TypeName(t: ImplantType): string {
    match t
    case TitanioStandard => "Titanio Standard"
    case TitanioPremium => "Titanio Premium"
    case Ceramica => "Ceramica"
    case Zirconia => "Zirconia"
  }

  /** Membership in the accepted implant types, keeping the type named. */
  function ParseType(s: string): (r: Option<ImplantType>)
    ensures r.Some? ==> TypeName(r.value) == s
    ensures r.None? ==> forall t: ImplantType :: TypeName(t) != s
  {
    if s == "Titanio Standard" then Some(TitanioStandard)
    else if s == "Titanio Premium" then Some(TitanioPremium)
    else if s == "Ceramica" then Some(Ceramica)
    else if s == "Zirconia" then Some(Zirconia)
    else None
  }

  /** The `status` enum; `Active` is the schema default. */
  datatype Status = Active | Archived

  function StatusName(s: Status): string {
    match s
    case Active => "Active"
    case Archived => "Archived"
  }

  function ParseStatus(s: string): (r: Option<Status>)
    ensures r.Some? ==> StatusName(r.value) == s
    ensures r.None? ==> forall x: Status :: StatusName(x) != s
  {
    if s == "Active" then Some(Active) else if s == "Archived" then Some(Archived) else None
  }

  datatype ImplantDetails = ImplantDetails(
    brand: string,
    lotNumber: string,
    implantDate: Date,
    position: string,
    diameter: real,
    length: real,
    notes: Option<string>)

  /**
   * A stored passport. `dentistId` is the owner, `patientId` and `pdfUrl` are
   * optional, and `createdAt` is the creation stamp the listing sorts on.
   */
  datatype Passport = Passport(
    patientName: string,
    dateOfBirth: Date,
    implantType: ImplantType,
    details: ImplantDetails,
    status: Status,
    dentistId: UserId,
    patientId: Option<UserId>,
    pdfUrl: Option<string>,
    createdAt: nat)

  /** The schema's `trim: true` setters on `patient_name` and `implant_details.notes`. */
  function ApplySetters(p: Passport): (q: Passport)
    ensures q.patientName == Trim(p.patientName)
    ensures q.details.notes.Some? <==> p.details.notes.Some?
    ensures q.details.notes.Some? ==> q.details.notes.value == Trim(p.details.notes.value)
    ensures q == p.(patientName := q.patientName, details := p.details.(notes := q.details.notes))
  {
    var notes := match p.details.notes
      case None => None
      case Some(n) => Some(Trim(n));
    p.(patientName := Trim(p.patientName), details := p.details.(notes := notes))
  }

  /** Setting a document through the setters twice changes nothing more. */
  lemma ApplySettersIdempotent(p: Passport)
    ensures ApplySetters(ApplySetters(p)) == ApplySetters(p)
  {
    TrimIdempotent(p.patientName);
    if p.details.notes.Some? {
      TrimIdempotent(p.details.notes.value);
    }
  }

  /** Mongoose's `required` on the string paths: an empty string is missing. */
  predicate SchemaValid(p: Passport) {
    p.patientName != "" && p.details.brand != "" && p.details.lotNumber != "" && p.details.position != ""
  }

  type Registry = Store.Collection<Passport>

  /** Ids are fresh, each passport's creation stamp is its id, and every passport passed schema validation. */
  ghost predicate RegistryValid(reg: Registry) {
    && Store.Valid(reg)
    && forall id | id in reg.docs :: reg.docs[id].createdAt == id && SchemaValid(reg.docs[id])
  }

  /** A passport as it is sent back: with its id and the `patient_age` virtual computed on `today`. */
  datatype View = View(id: nat, passport: Passport, patientAge: Option<int>)

  function ViewOf(id: nat, p: Passport, today: Date): (v: View)
    ensures v.id == id && v.passport == p
    ensures v.patientAge.Some?
    ensures !Before(today, Anniversary(p.dateOfBirth, v.patientAge.value))
    ensures Before(today, Anniversary(p.dateOfBirth, v.patientAge.value + 1))
  {
    View(id, p, PatientAge(Some(p.dateOfBirth), today))
  }
}
