/**
 * The passport routes: every request is authenticated, then held to the
 * route's role list, then (for create and update) to the payload rules, and
 * only then handed to its controller. `Decide` states the resulting access
 * policy on its own: route role gate, then existence, then the Admin-or-owner
 * test.
 */
module PassportRoutes {
  import opened Wrappers
  import opened Text
  import opened Http
  import opened Roles
  import opened Tokens
  import opened Passports
  import opened PassportValidation
  import opened PassportController
  import Store
  import AuthMiddleware

  datatype Request =
    | CreateReq(body: PassportInput)
    | GetReq(id: nat)
    | ListReq(page: Option<int>, limit: Option<int>)
    | UpdateReq(id: nat, body: PassportInput)
    | DeleteReq(id: nat)
    | PdfReq(id: nat)

  datatype Op = CreateOp | ReadOp | ListOp | UpdateOp | DeleteOp | ExportOp

  function OpOf(req: Request): Op {
    match req
    case CreateReq(_) => CreateOp
    case GetReq(_) => ReadOp
    case ListReq(_, _) => ListOp
    case UpdateReq(_, _) => UpdateOp
    case DeleteReq(_) => DeleteOp
    case PdfReq(_) => ExportOp
  }

  /** The record a request names; create and list name none. */
  function TargetOf(req: Request): Option<nat> {
    match req
    case GetReq(id) => Some(id)
    case UpdateReq(id, _) => Some(id)
    case DeleteReq(id) => Some(id)
    case PdfReq(id) => Some(id)
    case _ => None
  }

  /** The roles each route's `authorize(...)` admits. */
  function RouteRoles(op: Op): set<Role> {
    match op
    case CreateOp => {Dentist}
    case DeleteOp => {Admin}
    case _ => {Admin, Dentist}
  }

  const DeniedMsg: string := "Access denied: insufficient permissions"

  /** `POST /`: the payload rules, then `createPassport`. */
  function CreateRoute(env: PassportEnv, user: User, b: PassportInput, reg: Registry): (r: (Reply<Answer>, Registry))
    ensures !Acceptable(b) ==> r == (Invalid(Report(Rules(b))), reg)
    ensures Acceptable(b) ==> r == Create(env, user, Sanitize(b), reg)
  {
    match Validate(b)
    case Failure(errs) => (Invalid(errs), reg)
    case Success(pl) => Create(env, user, pl, reg)
  }

  /** `PUT /:id`: the payload rules, then `updatePassport`. */
  function UpdateRoute(env: PassportEnv, user: User, id: nat, b: PassportInput, reg: Registry): (r: (Reply<Answer>, Registry))
    ensures !Acceptable(b) ==> r == (Invalid(Report(Rules(b))), reg)
    ensures Acceptable(b) ==> r == Update(env, user, id, Sanitize(b), reg)
  {
    match Validate(b)
    case Failure(errs) => (Invalid(errs), reg)
    case Success(pl) => Update(env, user, id, pl, reg)
  }

  /** The handler chain behind the role gate. */
  function Route(env: PassportEnv, users: Users, user: User, req: Request, reg: Registry): (r: (Reply<Answer>, Registry))
  {
    match req
    case CreateReq(b) => CreateRoute(env, user, b, reg)
    case GetReq(id) => (Get(env, users, user, id, reg), reg)
    case ListReq(page, limit) => (List(env, user, page, limit, reg), reg)
    case UpdateReq(id, b) => UpdateRoute(env, user, id, b, reg)
    case DeleteReq(id) => Delete(user, id, reg)
    case PdfReq(id) => (Pdf(env, users, user, id, reg), reg)
  }

  /** A request from the authenticated `user`: the role gate, then the route's handlers. */
  function Dispatch(env: PassportEnv, users: Users, user: User, req: Request, reg: Registry)
    : (r: (Reply<Answer>, Registry))
    ensures user.role !in RouteRoles(OpOf(req)) ==> r == (Rejected(403, DeniedMsg), reg)
    // Stated for callers, so that a proof about a granted request can go straight to its handler.
    ensures user.role in RouteRoles(OpOf(req)) ==> r == Route(env, users, user, req, reg)
  {
    var gate := AuthMiddleware.Authorize(Some(user), RouteRoles(OpOf(req)));
    if gate != AuthMiddleware.Proceed then (AuthMiddleware.GateReply(gate), reg)
    else Route(env, users, user, req, reg)
  }

  /** A full request: `authenticateToken` on the header, then `Dispatch`. */
  function Handle(cfg: TokenConfig, codec: TokenCodec, now: int, env: PassportEnv, users: Users,
                  header: Option<string>, req: Request, reg: Registry): (r: (Reply<Answer>, Registry))
    ensures r.0.Status() == 401 <==> AuthMiddleware.Authenticate(cfg, codec, now, users, header).Failure?
    ensures r.0.Status() == 401 ==> r.1 == reg
  {
    match AuthMiddleware.Authenticate(cfg, codec, now, users, header)
    case Failure(f) => (AuthMiddleware.Unauthorized(f), reg)
    case Success(u) =>
      DispatchNeverUnauthenticated(env, users, u, req, reg);
      Dispatch(env, users, u, req, reg)
  }

  /** Once a user is authenticated, no handler answers 401: authorization failures are 403. */
  lemma DispatchNeverUnauthenticated(env: PassportEnv, users: Users, user: User, req: Request, reg: Registry)
    ensures Dispatch(env, users, user, req, reg).0.Status() != 401
  {
    if user.role in RouteRoles(OpOf(req)) {
      match req
      case CreateReq(b) => CreateNever401(env, user, b, reg);
      case UpdateReq(id, b) => UpdateNever401(env, user, id, b, reg);
      case _ =>
    }
  }

  lemma CreateNever401(env: PassportEnv, user: User, b: PassportInput, reg: Registry)
    ensures CreateRoute(env, user, b, reg).0.Status() != 401
  {
  }

  lemma UpdateNever401(env: PassportEnv, user: User, id: nat, b: PassportInput, reg: Registry)
    ensures UpdateRoute(env, user, id, b, reg).0.Status() != 401
  {
  }

  /** Reading, listing and exporting never change the registry, whoever asks. */
  lemma ReadsLeaveRegistry(env: PassportEnv, users: Users, user: User, req: Request, reg: Registry)
    requires req.GetReq? || req.ListReq? || req.PdfReq?
    ensures Dispatch(env, users, user, req, reg).1 == reg
  {
  }

  /** The access decision; listing is granted together with the owner filter it must apply. */
  datatype Decision = Permit | PermitFiltered(owner: Option<UserId>) | Forbidden | NotFound

  /** Route gate, then existence, then the controller's permission test. */
  function Decide(user: User, op: Op, reg: Registry, target: Option<nat>): (d: Decision)
    ensures user.role !in RouteRoles(op) ==> d == Forbidden
    ensures d.PermitFiltered? <==> op == ListOp && user.role in RouteRoles(op)
    ensures d == Permit ==>
      && user.role in RouteRoles(op)
      && (|| op == CreateOp
          || (target.Some? && target.value in reg.docs && AdminOrOwner(user, reg.docs[target.value])))
    ensures d == NotFound ==> target.None? || target.value !in reg.docs
  {
    if user.role !in RouteRoles(op) then Forbidden
    else if op == CreateOp then Permit
    else if op == ListOp then PermitFiltered(if user.role == Dentist then Some(user.id) else None)
    else if target.None? || target.value !in reg.docs then NotFound
    else if op == DeleteOp then (if user.role == Admin then Permit else Forbidden)
    else if AdminOrOwner(user, reg.docs[target.value]) then Permit
    else Forbidden
  }

  /** Read, update and export are granted exactly to an Admin, or to the Dentist who owns the record. */
  lemma OwnershipTable(user: User, op: Op, reg: Registry, id: nat)
    requires op == ReadOp || op == UpdateOp || op == ExportOp
    ensures Decide(user, op, reg, Some(id)) == Permit <==>
      id in reg.docs && (user.role == Admin || (user.role == Dentist && reg.docs[id].dentistId == user.id))
    ensures Decide(user, op, reg, Some(id)) == NotFound <==> id !in reg.docs && user.role != Patient
  {
  }

  /** Only an Admin may delete; anyone else is refused even for an id that does not exist. */
  lemma DeleteTable(user: User, reg: Registry, id: nat)
    ensures Decide(user, DeleteOp, reg, Some(id)) == Permit <==> user.role == Admin && id in reg.docs
    ensures Decide(user, DeleteOp, reg, Some(id)) == Forbidden <==> user.role != Admin
    ensures Decide(user, DeleteOp, reg, Some(id)) == NotFound <==> user.role == Admin && id !in reg.docs
  {
  }

  /** Only Dentists create; listing is filtered to the caller for a Dentist, unfiltered for an Admin. */
  lemma CreateAndListTable(user: User, reg: Registry)
    ensures Decide(user, CreateOp, reg, None) == Permit <==> user.role == Dentist
    ensures Decide(user, CreateOp, reg, None) != Permit ==> Decide(user, CreateOp, reg, None) == Forbidden
    ensures user.role == Dentist ==> Decide(user, ListOp, reg, None) == PermitFiltered(Some(user.id))
    ensures user.role == Admin ==> Decide(user, ListOp, reg, None) == PermitFiltered(None)
  {
  }

  /** A Patient is refused every passport operation. */
  lemma PatientAlwaysForbidden(user: User, op: Op, reg: Registry, target: Option<nat>)
    requires user.role == Patient
    ensures Decide(user, op, reg, target) == Forbidden
  {
  }

  /** An Admin may do everything to an existing record except create one. */
  lemma AdminMayDoAllButCreate(user: User, op: Op, reg: Registry, id: nat)
    requires user.role == Admin && id in reg.docs
    ensures op == CreateOp <==> Decide(user, op, reg, Some(id)) == Forbidden
  {
  }

  /** A Dentist is refused every per-record operation on another Dentist's passport. */
  lemma OtherDentistsForbidden(user: User, op: Op, reg: Registry, id: nat)
    requires user.role == Dentist && id in reg.docs && reg.docs[id].dentistId != user.id
    requires op != CreateOp && op != ListOp
    ensures Decide(user, op, reg, Some(id)) == Forbidden
  {
  }

  /** The payload a request carries, if any. */
  function BodyOf(req: Request): Option<PassportInput> {
    match req
    case CreateReq(b) => Some(b)
    case UpdateReq(_, b) => Some(b)
    case _ => None
  }

  /** The status a granted request succeeds with. */
  function SuccessCode(op: Op): int {
    if op == CreateOp then 201 else 200
  }

  /**
   * The server errors a request that passed the role gate and the payload
   * rules can still meet: a negative skip in a listing, a record whose
   * owner's account is gone (for a read, looked up before the ownership test
   * unless the caller is an Admin; for an export, always), and a PDF that does
   * not render.
   */
  predicate ServerFault(env: PassportEnv, users: Users, user: User, req: Request, reg: Registry) {
    match req
    case ListReq(page, limit) => (PageNumber(page) - 1) * PageSize(limit) < 0
    case GetReq(id) => id in reg.docs && !OwnerResolves(users, user, reg.docs[id])
    case PdfReq(id) =>
      && id in reg.docs
      && (|| reg.docs[id].dentistId !in users.docs
          || (AdminOrOwner(user, reg.docs[id]) && env.render(ViewOf(id, reg.docs[id], env.today)).None?))
    case _ => false
  }

  /**
   * The status the route stack owes a request, in the order the checks run:
   * role gate, payload rules, server faults, then the access decision.
   */
  function Expected(env: PassportEnv, users: Users, user: User, req: Request, reg: Registry): int {
    if user.role !in RouteRoles(OpOf(req)) then 403
    else if BodyOf(req).Some? && !Acceptable(BodyOf(req).value) then 400
    else if ServerFault(env, users, user, req, reg) then 500
    else
      match Decide(user, OpOf(req), reg, TargetOf(req))
      case Forbidden => 403
      case NotFound => 404
      case _ => SuccessCode(OpOf(req))
  }

  /**
   * The handlers enforce `Decide`: every request gets the status `Expected`
   * names, so a refusal is a 403, a missing record a 404, and a granted
   * request succeeds unless its payload or one of the server faults stops it.
   */
  lemma DispatchFollowsPolicy(env: PassportEnv, users: Users, user: User, req: Request, reg: Registry)
    ensures Dispatch(env, users, user, req, reg).0.Status() == Expected(env, users, user, req, reg)
  {
    if user.role in RouteRoles(OpOf(req)) {
      match req
      case CreateReq(b) => CreatePolicy(env, users, user, b, reg);
      case GetReq(id) => GetPolicy(env, users, user, id, reg);
      case ListReq(page, limit) => ListPolicy(env, users, user, page, limit, reg);
      case UpdateReq(id, b) => UpdatePolicy(env, users, user, id, b, reg);
      case DeleteReq(id) => DeletePolicy(env, users, user, id, reg);
      case PdfReq(id) => PdfPolicy(env, users, user, id, reg);
    }
  }

  lemma CreatePolicy(env: PassportEnv, users: Users, user: User, b: PassportInput, reg: Registry)
    requires user.role == Dentist
    ensures CreateRoute(env, user, b, reg).0.Status() == Expected(env, users, user, CreateReq(b), reg)
  {
    if Acceptable(b) {
      ValidCreateStores(env, user, b, reg);
    }
  }

  lemma GetPolicy(env: PassportEnv, users: Users, user: User, id: nat, reg: Registry)
    requires user.role in RouteRoles(ReadOp)
    ensures Get(env, users, user, id, reg).Status() == Expected(env, users, user, GetReq(id), reg)
  {
  }

  lemma ListPolicy(env: PassportEnv, users: Users, user: User, page: Option<int>, limit: Option<int>, reg: Registry)
    requires user.role in RouteRoles(ListOp)
    ensures List(env, user, page, limit, reg).Status() == Expected(env, users, user, ListReq(page, limit), reg)
  {
  }

  lemma UpdatePolicy(env: PassportEnv, users: Users, user: User, id: nat, b: PassportInput, reg: Registry)
    requires user.role in RouteRoles(UpdateOp)
    ensures UpdateRoute(env, user, id, b, reg).0.Status() == Expected(env, users, user, UpdateReq(id, b), reg)
  {
    UpdateRouteStatus(env, user, id, b, reg);
    UpdateExpected(env, users, user, id, b, reg);
  }

  lemma UpdateExpected(env: PassportEnv, users: Users, user: User, id: nat, b: PassportInput, reg: Registry)
    requires user.role in RouteRoles(UpdateOp)
    ensures Expected(env, users, user, UpdateReq(id, b), reg)
      == if !Acceptable(b) then 400
         else if id !in reg.docs then 404
         else if !AdminOrOwner(user, reg.docs[id]) then 403
         else 200
  {
  }

  /** The statuses of the update route, in the order its checks run. */
  lemma UpdateRouteStatus(env: PassportEnv, user: User, id: nat, b: PassportInput, reg: Registry)
    ensures UpdateRoute(env, user, id, b, reg).0.Status()
      == if !Acceptable(b) then 400
         else if id !in reg.docs then 404
         else if !AdminOrOwner(user, reg.docs[id]) then 403
         else 200
  {
    if Acceptable(b) && id in reg.docs && AdminOrOwner(user, reg.docs[id]) {
      UpdateStores(env, user, id, b, reg);
    }
  }

  lemma DeletePolicy(env: PassportEnv, users: Users, user: User, id: nat, reg: Registry)
    requires user.role in RouteRoles(DeleteOp)
    ensures Delete(user, id, reg).0.Status() == Expected(env, users, user, DeleteReq(id), reg)
  {
  }

  lemma PdfPolicy(env: PassportEnv, users: Users, user: User, id: nat, reg: Registry)
    requires user.role in RouteRoles(ExportOp)
    ensures Pdf(env, users, user, id, reg).Status() == Expected(env, users, user, PdfReq(id), reg)
  {
  }

  /** A payload that breaks the rules is refused with 400 before the record is looked up. */
  lemma InvalidUpdateRejectedFirst(env: PassportEnv, users: Users, user: User, id: nat, b: PassportInput, reg: Registry)
    requires user.role == Admin || user.role == Dentist
    requires !Acceptable(b)
    ensures Dispatch(env, users, user, UpdateReq(id, b), reg) == (Invalid(Report(Rules(b))), reg)
  {
  }

  /** The record a Dentist's accepted create stores: sanitized body, the caller as owner, no patient, status Active unless given. */
  function Created(user: User, b: PassportInput, stamp: nat): Passport
    requires Acceptable(b)
  {
    ApplySetters(NewPassport(user, Sanitize(b), stamp))
  }

  /** An accepted create stores `Created` under the next id, and nothing else changes. */
  lemma ValidCreateStores(env: PassportEnv, user: User, b: PassportInput, reg: Registry)
    requires Acceptable(b)
    ensures var (reply, after) := CreateRoute(env, user, b, reg);
      && reply.Status() == 201
      && after == Store.Collection(reg.docs[reg.next := Created(user, b, reg.next)], reg.next + 1)
      && SchemaValid(Created(user, b, reg.next))
  {
    AcceptedPayload(b);
    var pl := Sanitize(b);
    assert DetailsPresent(pl.details);
    assert SchemaValid(ApplySetters(NewPassport(user, pl, reg.next)));
  }

  /** A Dentist's accepted create is owned by that Dentist whatever the body says, with the status it names or Active. */
  lemma CreateSetsOwner(env: PassportEnv, users: Users, user: User, b: PassportInput, reg: Registry)
    requires user.role == Dentist
    requires Acceptable(b)
    ensures var (reply, stored) := Dispatch(env, users, user, CreateReq(b), reg);
      && reply.Status() == 201
      && reg.next in stored.docs
      && stored.docs[reg.next].dentistId == user.id
      && (b.status.None? ==> stored.docs[reg.next].status == Active)
      && (b.status.Some? ==> StatusName(stored.docs[reg.next].status) == b.status.value)
      && stored.docs[reg.next].patientId.None?
  {
    ValidCreateStores(env, user, b, reg);
    AcceptedPayload(b);
  }

  /** After an Admin deletes a record, reading it yields 404 for every role that may read. */
  lemma DeleteThenGet(env: PassportEnv, users: Users, admin: User, reader: User, id: nat, reg: Registry)
    requires admin.role == Admin && id in reg.docs
    requires reader.role == Admin || reader.role == Dentist
    ensures Dispatch(env, users, admin, DeleteReq(id), reg).0.Status() == 200
    ensures Dispatch(env, users, reader, GetReq(id), Dispatch(env, users, admin, DeleteReq(id), reg).1).0.Status() == 404
  {
  }

  /** The stored record after an accepted update. */
  function Updated(p: Passport, b: PassportInput): Passport
    requires Acceptable(b)
  {
    ApplySetters(Assign(p, Sanitize(b)))
  }

  /** An accepted update by an Admin or the owner replaces the record with `Updated` and nothing else. */
  lemma UpdateStores(env: PassportEnv, user: User, id: nat, b: PassportInput, reg: Registry)
    requires Acceptable(b)
    requires id in reg.docs && AdminOrOwner(user, reg.docs[id])
    ensures var (reply, after) := UpdateRoute(env, user, id, b, reg);
      && reply.Status() == 200
      && after == reg.(docs := reg.docs[id := Updated(reg.docs[id], b)])
      && SchemaValid(Updated(reg.docs[id], b))
  {
    AcceptedPayload(b);
    assert SchemaValid(Updated(reg.docs[id], b));
  }

  /**
   * An accepted update overwrites every supplied field, keeps the unsupplied
   * optional ones, and keeps the creation stamp; other records are untouched.
   */
  lemma UpdateOverwrites(env: PassportEnv, user: User, id: nat, b: PassportInput, reg: Registry)
    requires Acceptable(b)
    requires id in reg.docs && AdminOrOwner(user, reg.docs[id])
    ensures UpdateRoute(env, user, id, b, reg).0.Status() == 200
    ensures var after := UpdateRoute(env, user, id, b, reg).1;
      && id in after.docs
      && after.docs[id].patientName == Trimmed(b.patientName)
      && Some(after.docs[id].dateOfBirth) == b.dateOfBirth
      && TypeName(after.docs[id].implantType) == Trimmed(b.implantType)
      && after.docs[id].details.brand == Trimmed(b.details.value.brand)
      && (b.status.Some? ==> StatusName(after.docs[id].status) == b.status.value)
      && (b.status.None? ==> after.docs[id].status == reg.docs[id].status)
      && (b.dentistId.Some? ==> after.docs[id].dentistId == b.dentistId.value)
      && (b.dentistId.None? ==> after.docs[id].dentistId == reg.docs[id].dentistId)
      && (b.patientId.Some? ==> after.docs[id].patientId == b.patientId)
      && (b.patientId.None? ==> after.docs[id].patientId == reg.docs[id].patientId)
      && (b.pdfUrl.Some? ==> after.docs[id].pdfUrl == b.pdfUrl)
      && (b.pdfUrl.None? ==> after.docs[id].pdfUrl == reg.docs[id].pdfUrl)
      && after.docs[id].createdAt == reg.docs[id].createdAt
      && forall k | k in reg.docs && k != id :: k in after.docs && after.docs[k] == reg.docs[k]
  {
    UpdateStores(env, user, id, b, reg);
    AcceptedPayload(b);
  }

  /**
   * An accepted update replaces `implant_details` as a whole: every detail
   * comes from the body, so notes the body leaves out are gone afterwards.
   */
  lemma UpdateReplacesDetails(env: PassportEnv, user: User, id: nat, b: PassportInput, reg: Registry)
    requires Acceptable(b)
    requires id in reg.docs && AdminOrOwner(user, reg.docs[id])
    ensures var after := UpdateRoute(env, user, id, b, reg).1;
      var d := b.details.value;
      && id in after.docs
      && after.docs[id].details.brand == Trimmed(d.brand)
      && after.docs[id].details.lotNumber == Trimmed(d.lotNumber)
      && after.docs[id].details.position == Trimmed(d.position)
      && Some(after.docs[id].details.implantDate) == d.implantDate
      && Some(after.docs[id].details.diameter) == d.diameter
      && Some(after.docs[id].details.length) == d.length
      && (after.docs[id].details.notes.None? <==> d.notes.None?)
      && (d.notes.Some? ==> after.docs[id].details.notes == Some(Trim(d.notes.value)))
  {
    UpdateStores(env, user, id, b, reg);
    AcceptedPayload(b);
  }

  /** No transition guard: an update can set an Archived passport back to Active. */
  lemma ArchivedCanBeReactivated(env: PassportEnv, user: User, id: nat, b: PassportInput, reg: Registry)
    requires Acceptable(b) && b.status == Some("Active")
    requires id in reg.docs && reg.docs[id].status == Archived
    requires AdminOrOwner(user, reg.docs[id])
    ensures id in UpdateRoute(env, user, id, b, reg).1.docs
    ensures UpdateRoute(env, user, id, b, reg).1.docs[id].status == Active
  {
    UpdateStores(env, user, id, b, reg);
    AcceptedPayload(b);
  }

  /** Repeating an accepted update leaves the store as the first one left it (or is refused, if the first handed the record to another Dentist). */
  lemma UpdateIdempotent(env: PassportEnv, user: User, id: nat, b: PassportInput, reg: Registry)
    requires Acceptable(b)
    requires id in reg.docs && AdminOrOwner(user, reg.docs[id])
    ensures UpdateRoute(env, user, id, b, UpdateRoute(env, user, id, b, reg).1).1 == UpdateRoute(env, user, id, b, reg).1
  {
    var p := reg.docs[id];
    var q := Updated(p, b);
    UpdateStores(env, user, id, b, reg);
    var once := reg.(docs := reg.docs[id := q]);
    if !AdminOrOwner(user, q) {
      // The update handed the record to another Dentist: the repeat is refused and changes nothing.
      return;
    }
    UpdateStores(env, user, id, b, once);
    assert Updated(q, b) == q by {
      var pl := Sanitize(b);
      AcceptedPayload(b);
      if pl.details.notes.Some? {
        TrimIdempotent(pl.details.notes.value);
      }
    }
    assert once.docs[id := q] == once.docs;
  }

  /** Every request keeps the registry's invariant: ids are creation stamps and stored records satisfy the schema. */
  lemma RegistryStaysValid(env: PassportEnv, users: Users, user: User, req: Request, reg: Registry)
    requires RegistryValid(reg)
    ensures RegistryValid(Dispatch(env, users, user, req, reg).1)
  {
    if user.role in RouteRoles(OpOf(req)) {
      match req
      case CreateReq(b) => CreateKeepsValid(env, user, b, reg);
      case UpdateReq(id, b) => UpdateKeepsValid(env, user, id, b, reg);
      case DeleteReq(id) => DeleteKeepsValid(user, id, reg);
      case _ =>
    }
  }

  lemma CreateKeepsValid(env: PassportEnv, user: User, b: PassportInput, reg: Registry)
    requires RegistryValid(reg)
    ensures RegistryValid(CreateRoute(env, user, b, reg).1)
  {
    if Acceptable(b) {
      ValidCreateStores(env, user, b, reg);
    }
  }

  lemma DeleteKeepsValid(user: User, id: nat, reg: Registry)
    requires RegistryValid(reg)
    ensures RegistryValid(Delete(user, id, reg).1)
  {
  }

  lemma UpdateKeepsValid(env: PassportEnv, user: User, id: nat, b: PassportInput, reg: Registry)
    requires RegistryValid(reg)
    ensures RegistryValid(UpdateRoute(env, user, id, b, reg).1)
  {
    if UpdateRoute(env, user, id, b, reg).0.Done? {
      UpdateStores(env, user, id, b, reg);
    }
  }

  /** A Dentist who may read a record whose owner's account is gone gets a 500, not the 403 or 200 the policy names. */
  lemma MissingOwnerBreaksRead(env: PassportEnv, users: Users, user: User, id: nat, reg: Registry)
    requires user.role == Dentist && id in reg.docs && reg.docs[id].dentistId !in users.docs
    ensures Dispatch(env, users, user, GetReq(id), reg).0 == Rejected(500, "Errore durante il recupero del passaporto")
  {
  }
}
