/**
 * The passport controllers, as they run once the route's role gate and
 * validators have let a request through. Each per-record operation looks the
 * record up first (404) and only then checks who is asking (403).
 */
module PassportController {
  import opened Wrappers
  import opened Http
  import opened Dates
  import opened Roles
  import opened Passports
  import opened PassportValidation
  import Store
  import AuthMiddleware

  type User = AuthMiddleware.User
  type Users = AuthMiddleware.Users

  const NotFoundMsg: string := "Passaporto non trovato"
  const ForbiddenMsg: string := "Accesso negato"
  const CreateFailure: string := "Errore durante la creazione del passaporto: "
  const MissingDetailsMsg: string := "Mancano alcuni dettagli dell'impianto richiesti"
  const PdfErrorMsg: string := "Errore durante la generazione del PDF"

  /** The `pagination` block and the page of passports of a listing. */
  datatype Page = Page(passports: seq<View>, current: int, pages: int, total: nat)

  /** Success payloads. */
  datatype Answer =
    | Saved(message: string, view: View)
    | Shown(view: View)
    | Listed(page: Page)
    | Removed(message: string)
    | Exported(pdf: seq<bv8>)

  /** The request date for `patient_age`, and the PDF renderer, which can fail. */
  datatype PassportEnv = PassportEnv(today: Date, render: View -> Option<seq<bv8>>)

  /** The controllers' permission test: the caller is an Admin or the record's dentist. */
  predicate AdminOrOwner(user: User, p: Passport) {
    user.role == Admin || p.dentistId == user.id
  }

  /**
   * Whether `populate('dentist_id')` leaves an owner to compare against. When
   * the owner's account is gone it yields null, and a non-Admin caller's
   * ownership test then throws.
   */
  predicate OwnerResolves(users: Users, user: User, p: Passport) {
    user.role == Admin || p.dentistId in users.docs
  }

  /** `createPassport`'s check that brand, lot number, implant date, position, diameter and length are all truthy. */
  predicate DetailsPresent(d: ImplantDetails) {
    d.brand != "" && d.lotNumber != "" && d.position != "" && d.diameter != 0.0 && d.length != 0.0
  }

  /** The document `createPassport` builds: owner and creation stamp from the server, status defaulting to Active. */
  function NewPassport(user: User, pl: Payload, stamp: nat): Passport {
    Passport(pl.patientName, pl.dateOfBirth, pl.implantType, pl.details, pl.status.GetOr(Active),
             user.id, None, None, stamp)
  }

  /** `createPassport`: nothing is stored unless the required details are present and the schema accepts the document. */
  function Create(env: PassportEnv, user: User, pl: Payload, reg: Registry): (r: (Reply<Answer>, Registry))
    ensures !r.0.Done? ==> r.1 == reg
    ensures !DetailsPresent(pl.details) ==> r.0 == Rejected(500, CreateFailure + MissingDetailsMsg)
    ensures r.0.Done? ==>
      && r.0.code == 201
      && r.0.value.Saved?
      && var v := r.0.value.view;
         && v.id == reg.next
         && v.passport.dentistId == user.id
         && v.passport.status == pl.status.GetOr(Active)
         && v.passport.createdAt == reg.next
         && r.1 == Store.Collection(reg.docs[reg.next := v.passport], reg.next + 1)
  {
    var data := NewPassport(user, pl, reg.next);
    if !DetailsPresent(data.details) then (Rejected(500, CreateFailure + MissingDetailsMsg), reg)
    else
      var doc := ApplySetters(data);
      if !SchemaValid(doc) then (Rejected(500, CreateFailure + "Passport validation failed"), reg)
      else
        var (stored, id) := Store.Insert(reg, doc);
        (Done(201, Saved("Passaporto creato con successo", ViewOf(id, doc, env.today))), stored)
  }

  /** `getPassportById`: 404, then the populate failure, then 403. */
  function Get(env: PassportEnv, users: Users, user: User, id: nat, reg: Registry): (r: Reply<Answer>)
    ensures r.Status() == 404 <==> id !in reg.docs
    ensures r.Status() == 403 ==> id in reg.docs && !AdminOrOwner(user, reg.docs[id])
    ensures r.Done? ==>
      && id in reg.docs && AdminOrOwner(user, reg.docs[id])
      && r == Done(200, Shown(ViewOf(id, reg.docs[id], env.today)))
    ensures id in reg.docs && AdminOrOwner(user, reg.docs[id]) && OwnerResolves(users, user, reg.docs[id]) ==>
      r == Done(200, Shown(ViewOf(id, reg.docs[id], env.today)))
    ensures r.Status() == 500 <==> id in reg.docs && !OwnerResolves(users, user, reg.docs[id])
  {
    if id !in reg.docs then Rejected(404, NotFoundMsg)
    else
      var p := reg.docs[id];
      if !OwnerResolves(users, user, p) then Rejected(500, "Errore durante il recupero del passaporto")
      else if !AdminOrOwner(user, p) then Rejected(403, ForbiddenMsg)
      else Done(200, Shown(ViewOf(id, p, env.today)))
  }

  /** `parseInt(q) || fallback`: a missing, non-numeric or zero query value takes the fallback. */
  function QueryInt(q: Option<int>, fallback: int): (n: int)
    ensures q.Some? && q.value != 0 ==> n == q.value
    ensures q.None? || q.value == 0 ==> n == fallback
    ensures fallback != 0 ==> n != 0
  {
    if q.None? || q.value == 0 then fallback else q.value
  }

  /** `Math.ceil(a / b)`. */
  function CeilDiv(a: nat, b: int): (c: int)
    requires b != 0
    ensures b > 0 ==> (c - 1) * b < a <= c * b
    ensures b < 0 ==> c * b <= a < (c - 1) * b
  {
    if b > 0 then (a + b - 1) / b else -(a / -b)
  }

  /** The listing filter: a Dentist's own passports, everything for anyone else. */
  function ListFilter(user: User): Passport -> bool {
    if user.role == Dentist then (p: Passport) => p.dentistId == user.id else (p: Passport) => true
  }

  /** `.skip(skip).limit(limit)` over `ids`; a negative limit returns as many as its absolute value. */
  function Window(ids: seq<nat>, skip: nat, limit: int): (w: seq<nat>)
    ensures skip <= |ids| ==> |w| == if limit >= 0 then Min(limit, |ids| - skip) else Min(-limit, |ids| - skip)
    ensures skip > |ids| ==> w == []
    ensures forall i | 0 <= i < |w| :: skip + i < |ids| && w[i] == ids[skip + i]
  {
    var n := if limit >= 0 then limit else -limit;
    var from := Min(skip, |ids|);
    ids[from..Min(from + n, |ids|)]
  }

  function Min(a: int, b: int): int {
    if a <= b then a else b
  }

  /** The page size in force: `parseInt(limit) || 10`. */
  function PageSize(limitQ: Option<int>): int {
    QueryInt(limitQ, 10)
  }

  /** The page number in force: `parseInt(page) || 1`. */
  function PageNumber(pageQ: Option<int>): int {
    QueryInt(pageQ, 1)
  }

  /**
   * `views` is the window of `ids` that starts `skip` items in and holds up to
   * `|limit|` of them, each shown as its stored passport.
   */
  ghost predicate IsWindow(views: seq<View>, ids: seq<nat>, skip: nat, limit: int, reg: Registry, today: Date) {
    && (skip <= |ids| ==> |views| == Min(if limit >= 0 then limit else -limit, |ids| - skip))
    && (skip >= |ids| ==> views == [])
    && forall i | 0 <= i < |views| ::
         && skip + i < |ids| && ids[skip + i] in reg.docs
         && views[i] == ViewOf(ids[skip + i], reg.docs[ids[skip + i]], today)
  }

  /**
   * The page `listPassports` answers for the ordered matches `ids`: skip and
   * limit from the query, `total` and `pages` from the count. A negative skip
   * makes the query fail.
   */
  function Paginate(env: PassportEnv, pageQ: Option<int>, limitQ: Option<int>, ids: seq<nat>, reg: Registry)
    : (r: Reply<Answer>)
    requires forall i | 0 <= i < |ids| :: ids[i] in reg.docs
    ensures !r.Done? <==> (PageNumber(pageQ) - 1) * PageSize(limitQ) < 0
    ensures !r.Done? ==> r.Status() == 500
    ensures r.Done? ==> r.code == 200 && r.value.Listed?
    ensures r.Done? ==> var pg := r.value.page;
      && pg.current == PageNumber(pageQ)
      && pg.total == |ids|
      && pg.pages == CeilDiv(|ids|, PageSize(limitQ))
      && IsWindow(pg.passports, ids, (PageNumber(pageQ) - 1) * PageSize(limitQ), PageSize(limitQ), reg, env.today)
  {
    var page := PageNumber(pageQ);
    var limit := PageSize(limitQ);
    var skip := (page - 1) * limit;
    if skip < 0 then Rejected(500, "Errore durante il recupero dei passaporti")
    else
      var w := Window(ids, skip, limit);
      var views := seq(|w|, i requires 0 <= i < |w| => ViewOf(w[i], reg.docs[w[i]], env.today));
      Done(200, Listed(Page(views, page, CeilDiv(|ids|, limit), |ids|)))
  }

  /**
   * `listPassports` with the order it evidently intends: the caller's visible
   * passports newest first by creation stamp, then skip and limit.
   */
  function List(env: PassportEnv, user: User, pageQ: Option<int>, limitQ: Option<int>, reg: Registry): (r: Reply<Answer>)
    ensures !r.Done? <==> (PageNumber(pageQ) - 1) * PageSize(limitQ) < 0
    ensures !r.Done? ==> r.Status() == 500
    ensures r.Done? ==> r.code == 200 && r.value.Listed?
    ensures r.Done? ==> var pg := r.value.page;
      && pg.current == PageNumber(pageQ)
      && pg.total == |Store.Newest(reg.docs, ListFilter(user), reg.next)|
      && pg.pages == CeilDiv(pg.total, PageSize(limitQ))
      && IsWindow(pg.passports, Store.Newest(reg.docs, ListFilter(user), reg.next),
                  (PageNumber(pageQ) - 1) * PageSize(limitQ), PageSize(limitQ), reg, env.today)
  {
    Store.NewestSound(reg.docs, ListFilter(user), reg.next);
    Paginate(env, pageQ, limitQ, Store.Newest(reg.docs, ListFilter(user), reg.next), reg)
  }

  /**
   * `listPassports` as written: `sort({ createdAt: -1 })` names a path the
   * schema stores as `created_at`, so every document lacks the sort key and
   * they all tie. The page then follows the store's own order, `scan`, over
   * the same visible passports.
   */
  function ListAsWritten(env: PassportEnv, user: User, pageQ: Option<int>, limitQ: Option<int>, reg: Registry,
                         scan: nat -> int): (r: Reply<Answer>)
    ensures !r.Done? <==> (PageNumber(pageQ) - 1) * PageSize(limitQ) < 0
    ensures r.Done? ==> r.code == 200 && r.value.Listed?
    ensures r.Done? ==> var pg := r.value.page;
      && pg.current == PageNumber(pageQ)
      && pg.total == |Store.Newest(reg.docs, ListFilter(user), reg.next)|
      && pg.pages == CeilDiv(pg.total, PageSize(limitQ))
      && IsWindow(pg.passports, Store.Arrange(Store.Newest(reg.docs, ListFilter(user), reg.next), scan),
                  (PageNumber(pageQ) - 1) * PageSize(limitQ), PageSize(limitQ), reg, env.today)
  {
    var matches := Store.Newest(reg.docs, ListFilter(user), reg.next);
    Store.NewestSound(reg.docs, ListFilter(user), reg.next);
    Store.ArrangeMembers(matches, scan);
    Paginate(env, pageQ, limitQ, Store.Arrange(matches, scan), reg)
  }

  /** `Object.assign(passport, body)`: every supplied schema field overwrites the stored one. */
  function Assign(p: Passport, pl: Payload): (q: Passport)
    ensures q.patientName == pl.patientName && q.dateOfBirth == pl.dateOfBirth
    ensures q.implantType == pl.implantType && q.details == pl.details
    ensures q.status == if pl.status.Some? then pl.status.value else p.status
    ensures q.dentistId == if pl.dentistId.Some? then pl.dentistId.value else p.dentistId
    ensures pl.patientId.Some? ==> q.patientId == pl.patientId
    ensures pl.patientId.None? ==> q.patientId == p.patientId
    ensures pl.pdfUrl.Some? ==> q.pdfUrl == pl.pdfUrl
    ensures pl.pdfUrl.None? ==> q.pdfUrl == p.pdfUrl
    ensures q.createdAt == p.createdAt
  {
    p.(patientName := pl.patientName,
       dateOfBirth := pl.dateOfBirth,
       implantType := pl.implantType,
       details := pl.details,
       status := pl.status.GetOr(p.status),
       dentistId := pl.dentistId.GetOr(p.dentistId),
       patientId := if pl.patientId.Some? then pl.patientId else p.patientId,
       pdfUrl := if pl.pdfUrl.Some? then pl.pdfUrl else p.pdfUrl)
  }

  /** `updatePassport`: 404, then 403, then the overwrite; no status transition is guarded. */
  function Update(env: PassportEnv, user: User, id: nat, pl: Payload, reg: Registry): (r: (Reply<Answer>, Registry))
    ensures r.0.Status() == 404 <==> id !in reg.docs
    ensures r.0.Status() == 403 <==> id in reg.docs && !AdminOrOwner(user, reg.docs[id])
    ensures !r.0.Done? ==> r.1 == reg
    ensures r.0.Done? ==>
      && id in reg.docs && r.1.next == reg.next && r.1.docs.Keys == reg.docs.Keys
      && forall k | k in reg.docs && k != id :: r.1.docs[k] == reg.docs[k]
  {
    if id !in reg.docs then (Rejected(404, NotFoundMsg), reg)
    else
      var p := reg.docs[id];
      if !AdminOrOwner(user, p) then (Rejected(403, ForbiddenMsg), reg)
      else
        var q := ApplySetters(Assign(p, pl));
        if !SchemaValid(q) then (Rejected(500, "Errore durante l'aggiornamento del passaporto"), reg)
        else
          (Done(200, Saved("Passaporto aggiornato con successo", ViewOf(id, q, env.today))),
           reg.(docs := reg.docs[id := q]))
  }

  /** `deletePassport`: 404, then Admin only. */
  function Delete(user: User, id: nat, reg: Registry): (r: (Reply<Answer>, Registry))
    ensures r.0.Status() == 404 <==> id !in reg.docs
    ensures r.0.Done? <==> id in reg.docs && user.role == Admin
    ensures r.0.Done? ==> r.1.docs == reg.docs - {id} && r.1.next == reg.next
    ensures !r.0.Done? ==> r.1 == reg
  {
    if id !in reg.docs then (Rejected(404, NotFoundMsg), reg)
    else if user.role != Admin then (Rejected(403, ForbiddenMsg), reg)
    else (Done(200, Removed("Passaporto eliminato con successo")), reg.(docs := reg.docs - {id}))
  }

  /**
   * `downloadPassportPDF`: the checks of `Get`, then rendering; the record is
   * only read. The PDF prints the owner's email, so a record whose owner's
   * account is gone fails with 500 for an Admin too, once rendering starts.
   */
  function Pdf(env: PassportEnv, users: Users, user: User, id: nat, reg: Registry): (r: Reply<Answer>)
    ensures r.Status() == 404 <==> id !in reg.docs
    ensures r.Status() == 403 ==> id in reg.docs && !AdminOrOwner(user, reg.docs[id])
    ensures r.Done? ==>
      && id in reg.docs && AdminOrOwner(user, reg.docs[id]) && reg.docs[id].dentistId in users.docs
      && r.value.Exported?
      && env.render(ViewOf(id, reg.docs[id], env.today)) == Some(r.value.pdf)
    ensures id in reg.docs && AdminOrOwner(user, reg.docs[id]) && reg.docs[id].dentistId in users.docs ==>
      var view := ViewOf(id, reg.docs[id], env.today);
      r == if env.render(view).Some? then Done(200, Exported(env.render(view).value)) else Rejected(500, PdfErrorMsg)
    ensures r.Status() == 500 <==>
      && id in reg.docs
      && (|| reg.docs[id].dentistId !in users.docs
          || (AdminOrOwner(user, reg.docs[id]) && env.render(ViewOf(id, reg.docs[id], env.today)).None?))
  {
    if id !in reg.docs then Rejected(404, NotFoundMsg)
    else
      var p := reg.docs[id];
      if !OwnerResolves(users, user, p) then Rejected(500, PdfErrorMsg)
      else if !AdminOrOwner(user, p) then Rejected(403, ForbiddenMsg)
      else if p.dentistId !in users.docs then Rejected(500, PdfErrorMsg)
      else
        match env.render(ViewOf(id, p, env.today))
        case None => Rejected(500, PdfErrorMsg)
        case Some(bytes) => Done(200, Exported(bytes))
  }
}
