# Implant passport: access control and validation model

The system is a web application for dental implant passports. Dentists
register the implants they place. Admins oversee every record. Each record
holds the patient's name and birth date, the implant type, the implant's
details (brand, lot number, date, position, diameter, length, notes), a
status (Active or Archived) and its owning Dentist.

This Dafny project models the part of the system that decides who may do
what, and with which data:

- The Express backend's `authenticateToken` and `authorize(...roles)`
  middleware.
- The signup, login and profile handlers, with their validators.
- The passport routes with the `validatePassport` rule set and their role
  gates.
- The six passport handlers: create, read, list with pagination, update,
  delete and PDF export.
- The `patient_age` virtual and the schema's `trim` setters.
- On the React side: the `ProtectedRoute` guard and the validation of the
  login and signup forms.

The model is functional. A request is a datatype value. The passport and
user collections are immutable maps from creation-ordered ids to documents.
Each handler is a function from its inputs and the collection to a reply
(`Done(code, value)`, `Invalid(errors)` for a 400 from the validators, or
`Rejected(code, message)`) and the collection after the call.

Everything the code does not decide itself becomes a parameter:

- The request time, and today's date for `patient_age`.
- The JWT sign/verify pair, a codec assumed only to round-trip.
- The password hasher, assumed only to accept each password against its own
  hash.
- express-validator's `isEmail`/`normalizeEmail`.
- The PDF renderer.

Modules follow the source's components:

| Dafny module | source component |
|---|---|
| `Text`, `Wrappers`, `Http`, `Store`, `Roles` | shared helpers: JavaScript string semantics, Option/Result, replies, collections, roles |
| `Tokens` | `generateToken` and `jwt.verify` |
| `AuthMiddleware` | `backend/src/middlewares/auth.js` |
| `AuthValidation`, `AuthController` | `backend/src/routes/authRoutes.js`, `backend/src/controllers/authController.js` |
| `Dates`, `Passports` | `backend/src/models/Passport.js` |
| `PassportValidation`, `PassportRoutes` | `backend/src/routes/passportRoutes.js` |
| `PassportController`, `PassportListing` | `backend/src/controllers/passportController.js` |
| `FormRules`, `LoginForm`, `SignupForm`, `ProtectedRoute` | `frontend/src/components/*.tsx` |

Where the code and the written design disagree, the model follows the code:

- The minimum diameter is inclusive (`isFloat({ min: 0.1 })` accepts 0.1).
- An update overwrites every supplied field, including `dentist_id` and
  `status`, with no transition guard.
- A signup password needs a digit and a letter as well as eight characters.
- An update is held to the full create rule set.

## Model

| member | source | states |
|---|---|---|
| `Roles.Parse` | backend/src/routes/authRoutes.js:21-24 | a role string is accepted exactly when it names one of the three roles, and parsing gives back that role |
| `Tokens.Issue` | backend/src/controllers/authController.js:8-14 | a token is issued exactly when a non-empty secret is set and the lifetime is a timespan |
| `Tokens.Verify` | backend/src/middlewares/auth.js:15 | no secret, or an empty one, means malformed; with a key, a token the codec cannot open is malformed, and an opened one is expired exactly when the time has reached its `exp`, otherwise valid for its subject |
| `Tokens.IssueThenVerify` | backend/src/controllers/authController.js:8-14 | a token issued at one time verifies to its subject until the lifetime ends, and as expired afterwards, and contains no space |
| `Dates.PatientAge` | backend/src/models/Passport.js:82-92 | the age is absent exactly when the birth date is; otherwise the `age`-th birthday has been reached by today and the next one has not |
| `Dates.AgeIsUnique` | backend/src/models/Passport.js:82-92 | any count of birthdays that is reached with the next one still ahead is the computed age |
| `Dates.AgeBounds` | backend/src/models/Passport.js:82-92 | for a birth date not after today, the age is non-negative and is the year difference or one less |
| `Text.TrimIsInfix` | backend/src/routes/passportRoutes.js:17-20 | trimming removes only white space from both ends: the result is a contiguous piece of the input with no white space at either end |
| `Text.TrimEmptyIff` | backend/src/routes/passportRoutes.js:17-20 | a field is blank after `trim()` exactly when it consists of white space only |
| `Text.TrimIdempotent` | backend/src/models/Passport.js:37-41 | trimming twice is trimming once |
| `Text.Split` | backend/src/middlewares/auth.js:14 | splitting gives at least one piece, at least two when the separator occurs, and no piece contains the separator |
| `Text.JoinSplit` | backend/src/middlewares/auth.js:14 | rejoining the pieces of a split with the separator gives back the original string |
| `Text.SplitJoin` | backend/src/middlewares/auth.js:14 | splitting a join of separator-free pieces gives back the pieces |
| `Text.Utf16Length` | frontend/src/components/SignupForm.tsx:59 | the browser's string length is at least the number of characters |
| `Store.Insert` | backend/src/controllers/passportController.js:49-50 | a save stores the document under a fresh id, keeps every other document, and keeps the collection's ids fresh |
| `Store.NewestSound` | backend/src/controllers/passportController.js:119-123 | every id the sorted query returns names a stored document that matches the filter |
| `Store.NewestSorted` | backend/src/models/Passport.js:100 | the intended listing order (see Findings): ids newest first, strictly descending |
| `Store.NewestComplete` | backend/src/controllers/passportController.js:119-123 | every stored document matching the filter is returned |
| `Store.NewestCount` | backend/src/controllers/passportController.js:125 | the count the listing reports equals the number of matching stored documents |
| `Store.ArrangePermutes` | backend/src/controllers/passportController.js:119-123 | the order the store returns tied documents in holds exactly the matching documents, each once |
| `Store.ArrangeSorted` | backend/src/controllers/passportController.js:119-123 | tied documents come back in the store's own scan order |
| `Store.FindOne` | backend/src/controllers/authController.js:31 | `findOne` returns the oldest matching document, and returns none only when no document matches |
| `AuthMiddleware.BearerTokenOfHeader` | backend/src/middlewares/auth.js:9-14 | the header `Bearer <t>` yields exactly `t` when `t` holds no space |
| `AuthMiddleware.BearerToken` | backend/src/middlewares/auth.js:9-14 | a token is taken exactly from a header that starts with `Bearer `, and it holds no space |
| `AuthMiddleware.Authenticate` | backend/src/middlewares/auth.js:7-34 | "token required" exactly when the header does not start with `Bearer `; "token expired" exactly for an expired verdict and "invalid token" exactly for a malformed one; a valid token whose subject has an account authenticates that account, and every success is the stored user the token names; "user not found" means a valid token whose subject has no account |
| `AuthMiddleware.Authorize` | backend/src/middlewares/auth.js:40-54 | the request proceeds exactly when a user is present with a listed role; 401 exactly when no user is present; otherwise 403 |
| `AuthValidation.PasswordErrors` | backend/src/routes/authRoutes.js:14-20 | no error exactly for a strong password; each of the length, digit and letter messages appears exactly when its rule fails, length counted as `isLength` counts it |
| `AuthValidation.ValidatorLength` | backend/src/routes/authRoutes.js:15 | `isLength`'s count never exceeds the number of characters |
| `AuthValidation.PlainValidatorLength` | backend/src/routes/authRoutes.js:15 | without presentation selectors, `isLength` counts every character |
| `AuthValidation.SelectorsNotCounted` | backend/src/routes/authRoutes.js:15 | `isLength`'s count plus the number of U+FE0E and U+FE0F characters is the character count |
| `AuthValidation.SignupErrors` | backend/src/routes/authRoutes.js:9-25 | the signup body passes exactly when the email, password and optional role all pass; the email and role messages appear exactly when their rules fail |
| `AuthValidation.LoginErrors` | backend/src/routes/authRoutes.js:27-35 | the login body passes exactly with a valid email and a non-empty password; "Password is required" appears exactly for an empty one |
| `AuthController.FindByEmail` | backend/src/controllers/authController.js:31 | a found account carries the email; none found means no account has it |
| `AuthController.SignupRole` | backend/src/controllers/authController.js:28 | a missing role becomes Dentist; a given role is kept exactly when it is one of the three |
| `AuthController.Signup` | backend/src/controllers/authController.js:20-61 | a body failing its validators gets exactly their errors; a passing body with a registered email gets the duplicate 400; a passing body with a free email is stored and gets 201 exactly when a token can be signed, and 500 otherwise; a 400 leaves the accounts unchanged, anything else appends exactly the new account; user-store validity and email uniqueness are preserved |
| `AuthController.Login` | backend/src/controllers/authController.js:67-107 | a successful login returns a stored account with the normalized email whose hash matches the password |
| `AuthController.Profile` | backend/src/controllers/authController.js:113-121 | 404 exactly when the id has no account; otherwise 200 with that account's id, email and role, and no password hash |
| `AuthController.ProfileRoute` | backend/src/routes/authRoutes.js:40 | 401 exactly when authentication fails; 404 exactly when the authenticated id has no account; a 200 is the authenticated account |
| `AuthController.SignupDefaultsToDentist` | backend/src/controllers/authController.js:28-43 | an account created without a role is a Dentist |
| `AuthController.SignupRejectsDuplicate` | backend/src/controllers/authController.js:30-36 | a valid signup for an email already in use is refused with 400 and changes nothing |
| `AuthController.SignupThenAuthenticate` | backend/src/controllers/authController.js:47-54 | the token a signup returns authenticates the new account until it expires |
| `AuthController.LoginThenAuthenticate` | backend/src/controllers/authController.js:94-101 | the token a login returns authenticates the account that logged in until it expires |
| `AuthController.SignupThenLogin` | backend/src/controllers/authController.js:20-107 | after a successful signup, logging in with the same credentials succeeds and returns the new account with the requested role |
| `AuthController.ValidSignupCanLogIn` | backend/src/controllers/authController.js:20-107 | a valid signup for an unused email succeeds whenever tokens can be signed, and its credentials then log in |
| `AuthController.LoginFailureIsUniform` | backend/src/controllers/authController.js:77-91 | an unknown email and a wrong password draw the same 401 reply |
| `AuthController.ProfileOfAuthenticatedUser` | backend/src/controllers/authController.js:113-119 | behind a successful authentication the profile is the authenticated account, without its password hash |
| `Passports.ParseType` | backend/src/routes/passportRoutes.js:26-31 | an implant type string is accepted exactly when it names one of the four types |
| `Passports.ParseStatus` | backend/src/routes/passportRoutes.js:72-75 | a status string is accepted exactly when it is Active or Archived |
| `Passports.ApplySetters` | backend/src/models/Passport.js:28-41 | saving trims the patient name and the notes and changes no other field |
| `Passports.ApplySettersIdempotent` | backend/src/models/Passport.js:28-41 | saving an already saved document through the setters changes nothing |
| `Passports.ViewOf` | backend/src/models/Passport.js:81-96 | a passport is sent back with its id, unchanged, and the age reached today: that birthday has passed and the next has not |
| `PassportValidation.ReportExact` | backend/src/controllers/passportController.js:12-15 | an error is reported exactly when some validator with that path and message failed |
| `PassportValidation.ReportEmpty` | backend/src/controllers/passportController.js:12-15 | the error list is empty exactly when every validator passed |
| `PassportValidation.DetailRulesPass` | backend/src/routes/passportRoutes.js:39-70 | the details validators all pass exactly when brand, lot number and position are non-blank, the implant date is a date, the diameter is at least 0.1 and the length at least 0.5 |
| `PassportValidation.RulesPassIff` | backend/src/routes/passportRoutes.js:16-76 | the whole rule set passes exactly when the body is acceptable field by field |
| `PassportValidation.Validate` | backend/src/routes/passportRoutes.js:16-76 | a body is accepted exactly when it is acceptable; otherwise the reply lists every failing validator and is not empty |
| `PassportValidation.AcceptedPayload` | backend/src/routes/passportRoutes.js:16-76 | an accepted payload carries the client's values, trimmed and non-blank, with the named type and status, and diameter and length at or above their minimums |
| `PassportValidation.ValidateReportsEveryFailure` | backend/src/routes/passportRoutes.js:16-76 | every failing validator's message is in the 400 reply, not just the first |
| `PassportController.Create` | backend/src/controllers/passportController.js:10-68 | nothing is stored unless the reply is 201; missing details give the 500 with the missing-details message; a 201 stores the passport under the next id, owned by the caller, with the requested status or Active |
| `PassportController.Get` | backend/src/controllers/passportController.js:75-97 | 404 exactly for a missing id; 500 exactly when the record exists and a non-Admin finds its owner's account gone; 403 only for a record the caller neither owns nor administers; an Admin, or the owner of a record whose owner resolves, gets 200 with the stored record, and a 200 goes to no one else |
| `PassportController.QueryInt` | backend/src/controllers/passportController.js:106-107 | a missing, non-numeric or zero query value takes the default; any other integer is used as given; so with a non-zero default the value in force is never zero |
| `PassportController.CeilDiv` | backend/src/controllers/passportController.js:131 | the page count is the ceiling of total over the page size, for either sign of the size |
| `PassportController.Window` | backend/src/controllers/passportController.js:122-123 | skip-then-limit returns the consecutive run of ids that starts `skip` items in, holding up to the absolute limit of them |
| `PassportController.List` | backend/src/controllers/passportController.js:104-141 | the intended listing (see Findings): fails with 500 exactly when the skip is negative; otherwise 200 with the page number, the count of all visible passports, the ceiling page count, and the page's window of the newest-first visible passports |
| `PassportController.ListAsWritten` | backend/src/controllers/passportController.js:104-141 | the listing as written: the same page number, count, page count and failure as the intended one, but the window is taken over the visible passports in the store's own order |
| `PassportController.Update` | backend/src/controllers/passportController.js:148-181 | 404 exactly for a missing id; 403 exactly for a record the caller neither owns nor administers; nothing changes unless the reply is 200, and then only that record |
| `PassportController.Assign` | backend/src/controllers/passportController.js:168 | `Object.assign` overwrites the required fields and the details, overwrites status, owner, patient and PDF link only when supplied and otherwise keeps them, and keeps the creation stamp |
| `PassportController.Delete` | backend/src/controllers/passportController.js:188-210 | 404 exactly for a missing id; the record is removed exactly when it exists and the caller is an Admin; otherwise nothing changes |
| `PassportController.Pdf` | backend/src/controllers/passportController.js:217-257 | 404 exactly for a missing id; 500 exactly when the record's owner has no account (for a non-Admin at the ownership test, for an Admin when the PDF prints the owner's email) or, for an Admin or the owner, the renderer fails; an Admin or owner of a record whose owner has an account gets 200 with exactly the renderer's bytes, and a 200 goes to no one else |
| `PassportRoutes.CreateRoute` | backend/src/routes/passportRoutes.js:83-88 | an unacceptable body is refused with every failing validator and stores nothing; an acceptable one is created from its sanitized payload |
| `PassportRoutes.UpdateRoute` | backend/src/routes/passportRoutes.js:105-110 | an unacceptable body is refused with every failing validator and changes nothing; an acceptable one updates with its sanitized payload |
| `PassportRoutes.Dispatch` | backend/src/routes/passportRoutes.js:83-124 | a role outside the route's list gets 403 and changes nothing; a listed role reaches the route's handlers |
| `PassportRoutes.Decide` | backend/src/routes/passportRoutes.js:83-124 | the access decision: a role outside the route's list is refused; listing, and only listing, is granted with a filter; a grant is a create or an existing record the caller administers or owns; not-found only for a missing record |
| `PassportRoutes.Handle` | backend/src/routes/passportRoutes.js:80 | a request is answered 401 exactly when authentication fails, and then nothing changes |
| `PassportRoutes.DispatchNeverUnauthenticated` | backend/src/middlewares/auth.js:40-54 | behind authentication no passport route answers 401 |
| `PassportRoutes.ReadsLeaveRegistry` | backend/src/routes/passportRoutes.js:90-124 | reading, listing and exporting never change the records |
| `PassportRoutes.OwnershipTable` | backend/src/controllers/passportController.js:84-88 | read, update and export are granted exactly to an Admin or to the owning Dentist of an existing record |
| `PassportRoutes.DeleteTable` | backend/src/controllers/passportController.js:188-199 | delete is granted exactly to an Admin on an existing record; every non-Admin is refused, even for a missing id |
| `PassportRoutes.CreateAndListTable` | backend/src/routes/passportRoutes.js:82-102 | only Dentists create; a Dentist's listing is filtered to themself, an Admin's is unfiltered |
| `PassportRoutes.PatientAlwaysForbidden` | backend/src/routes/passportRoutes.js:83-124 | a Patient is refused every passport operation |
| `PassportRoutes.AdminMayDoAllButCreate` | backend/src/routes/passportRoutes.js:83-124 | an Admin is refused exactly the create operation on an existing record |
| `PassportRoutes.OtherDentistsForbidden` | backend/src/controllers/passportController.js:161-165 | a Dentist is refused every per-record operation on another Dentist's passport |
| `PassportRoutes.DispatchFollowsPolicy` | backend/src/routes/passportRoutes.js:83-124 | every request gets the status owed in the order the checks run: 403 outside the route's roles, 400 for a bad body, 500 for a negative skip, a missing owner account (on a read by a non-Admin, on every export) or a failed render, then 403 or 404 as the access decision refuses, and 201 for a create or 200 otherwise when it grants |
| `PassportRoutes.UpdateRouteStatus` | backend/src/routes/passportRoutes.js:105-110 | the update route answers 400 for a bad body, then 404 for a missing id, then 403 for a record the caller neither owns nor administers, and 200 otherwise |
| `PassportRoutes.InvalidUpdateRejectedFirst` | backend/src/routes/passportRoutes.js:105-110 | a bad update body is refused with 400 before the record is looked up or ownership is checked |
| `PassportRoutes.ValidCreateStores` | backend/src/controllers/passportController.js:20-59 | an accepted create answers 201 and stores exactly the sanitized record under the next id, and that record satisfies the schema |
| `PassportRoutes.CreateSetsOwner` | backend/src/controllers/passportController.js:33-34 | a Dentist's create is owned by that Dentist whatever the body says, with the given status or Active, and no patient |
| `PassportRoutes.DeleteThenGet` | backend/src/controllers/passportController.js:188-203 | after an Admin deletes a record, reading it gives 404 to every role allowed to read |
| `PassportRoutes.UpdateStores` | backend/src/controllers/passportController.js:167-174 | an accepted update by an Admin or the owner answers 200 and replaces exactly that record with the overwritten one, which satisfies the schema |
| `PassportRoutes.UpdateOverwrites` | backend/src/controllers/passportController.js:167-169 | an update overwrites every supplied field, including the owner, the status, the patient and the PDF link, keeps the unsupplied ones and the creation stamp, and leaves other records alone |
| `PassportRoutes.UpdateReplacesDetails` | backend/src/controllers/passportController.js:167-169 | an update replaces the implant details as a whole: brand, lot number and position trimmed, date, diameter and length from the body, and notes only if the body has them |
| `PassportRoutes.ArchivedCanBeReactivated` | backend/src/controllers/passportController.js:167-169 | no status transition is guarded: an Archived passport can be set back to Active |
| `PassportRoutes.UpdateIdempotent` | backend/src/controllers/passportController.js:167-169 | repeating an accepted update leaves the records as the first one left them |
| `PassportRoutes.RegistryStaysValid` | backend/src/models/Passport.js:36-79 | every request keeps fresh ids, creation stamps equal to ids, and every stored record within the schema |
| `PassportRoutes.MissingOwnerBreaksRead` | backend/src/controllers/passportController.js:84-96 | a Dentist reading a record whose owner's account is gone gets a 500, not a 403 |
| `PassportListing.DentistSeesOwnOnly` | backend/src/controllers/passportController.js:112-125 | a Dentist's page holds only their own passports, and the total counts all of them |
| `PassportListing.AdminSeesAll` | backend/src/controllers/passportController.js:112-125 | an Admin's total counts every stored passport |
| `PassportListing.NewestFirst` | backend/src/controllers/passportController.js:119-123 | in the intended listing (see Findings), along a page the creation stamps strictly decrease |
| `PassportListing.PageStartsInside` | backend/src/controllers/passportController.js:108-131 | with positive size and page number, a page starts before the end exactly when its number is at most the page count |
| `PassportListing.PageNonEmptyIff` | backend/src/controllers/passportController.js:106-131 | with positive size and page number, a page has items exactly when its number is at most the page count |
| `PassportListing.DefaultPage` | backend/src/controllers/passportController.js:106-108 | in the intended listing (see Findings), without query values the first page holds the ten newest visible passports, and the page count is the ceiling of total over ten |
| `PassportListing.ElevenMakeTwoPages` | backend/src/controllers/passportController.js:106-134 | eleven visible passports under the defaults make two pages, the first holding ten |
| `PassportListing.NegativeLimitOnFirstPage` | backend/src/controllers/passportController.js:107-123 | a negative limit on the first page returns as many passports as its absolute value, with a non-positive page count |
| `PassportListing.NegativeSkipFails` | backend/src/controllers/passportController.js:104-140 | a page number below one with a positive size fails with 500 |
| `PassportListing.AsWrittenDiffersOnlyInOrder` | backend/src/controllers/passportController.js:119-131 | the listing as written fails exactly when the intended one does, reports the same page number, total and page count, shows as many passports, and shows only visible ones |
| `PassportListing.AsWrittenCanListOldestFirst` | backend/src/controllers/passportController.js:121 | for two passports and a store that returns them in insertion order, the listing as written shows the older first, while the intended one shows the newer first |
| `FormRules.TestEmail` | frontend/src/components/LoginForm.tsx:44 | the scan finds a match exactly when the text contains non-space, `@`, non-space, `.`, non-space |
| `FormRules.EmailError` | frontend/src/components/LoginForm.tsx:40-47 | the email field is fine exactly when the pattern matches; "Email is required" exactly when it is empty |
| `FormRules.SurroundingTextAccepted` | frontend/src/components/SignupForm.tsx:50 | the pattern is searched for, not matched whole: text around an address passes, and an address without a dot fails |
| `ProtectedRoute.Guard` | frontend/src/components/ProtectedRoute.tsx:11-43 | a spinner exactly while loading; a redirect to login, remembering the location, exactly for a signed-out user; the children exactly for a signed-in user whose role is listed or when no list is given |
| `ProtectedRoute.GuardAgreesWithServer` | frontend/src/components/ProtectedRoute.tsx:32-40 | once loaded, the guard shows, redirects to login or redirects to unauthorized exactly when the server's role gate proceeds, answers 401 or answers 403 |
| `ProtectedRoute.EmptyListAdmitsNobody` | frontend/src/components/ProtectedRoute.tsx:38-40 | an empty role list sends every signed-in user to unauthorized |
| `LoginForm.Validate` | frontend/src/components/LoginForm.tsx:33-57 | the form may be submitted exactly when it shows no message, which is exactly when the email matches the pattern and a password is typed |
| `LoginForm.LoginReturnsToGuardedPage` | frontend/src/components/LoginForm.tsx:86-88 | a signed-out visit to a guarded page, followed by a login, lands back on that page |
| `LoginForm.SubmittedPasswordPassesServer` | frontend/src/components/LoginForm.tsx:49-53 | a form the client submits never draws the server's missing-password error |
| `SignupForm.PasswordError` | frontend/src/components/SignupForm.tsx:55-68 | the password is fine exactly when it passes the form's rules; otherwise the message of the first failing rule, in the order required, length, digit, letter |
| `SignupForm.ConfirmError` | frontend/src/components/SignupForm.tsx:70-77 | the confirmation is fine exactly when it is filled in and equal to the password |
| `SignupForm.Validate` | frontend/src/components/SignupForm.tsx:37-87 | the form may be submitted exactly when it shows no message, which is exactly when the email, password, confirmation and role all pass |
| `SignupForm.MenuRolesAccepted` | frontend/src/components/SignupForm.tsx:185-196 | every role the menu offers is one the server accepts, and Admin is not offered |
| `SignupForm.ServerStrongIsFormStrong` | frontend/src/components/SignupForm.tsx:55-68 | every password the server counts as strong passes the form |
| `SignupForm.FormAcceptsShortAstralPassword` | frontend/src/components/SignupForm.tsx:59-61 | a password of seven characters, one of them outside the Basic Multilingual Plane, passes the form's length rule but fails the server's |
| `SignupForm.FormAcceptsSelectorPadding` | frontend/src/components/SignupForm.tsx:59-61 | a password of seven characters and a U+FE0F passes the form's length rule but fails the server's |
| `SignupForm.SubmissionPassesServerRules` | frontend/src/components/SignupForm.tsx:114-124 | a form the client submits passes the server's password rules whenever no character lies outside the Basic Multilingual Plane and none is a presentation selector |
| `SignupForm.BmpLength` | frontend/src/components/SignupForm.tsx:59 | without characters outside the Basic Multilingual Plane, the browser's length is the character count |

## Left out

- Cryptography: the JWT signature scheme, bcrypt and its salt are abstract parameters. Only their round-trip property is assumed, as a hypothesis of the lemmas that need it.
- `isEmail` and `normalizeEmail` are parameters. Their internals are not modelled.
- The time source and today's date are parameters. Time zones and the `Date` parsing of ISO 8601 strings are not modelled. A date field is either a valid calendar triple or absent.
- Numbers arrive parsed. A diameter or length is a real number or absent. JavaScript floating point and `Number(...)` coercion are not modelled.
- `implant_details` that is present but not an object is not representable, so the `isObject` rule is folded into presence.
- Body fields outside the schema, and `Object.assign` of non-schema keys, are not represented.
- Mongo ids are natural numbers. A malformed id string (a cast error, answered 500) is not representable.
- Store and network failures other than those named in the model are not modelled. `populate` is represented only by the owner-resolution check; the populated email and role fields are not.
- Creation stamps are the insertion order. The intended listing sorts on them; the listing as written sorts on a path no document has (see Findings), and the store's order among those tied documents is a rank function given as a parameter.
- The PDF is produced by an abstract renderer, with failure as `None`. The layout, the response headers and the file name are not modelled.
- Mongoose validation error texts are not modelled: a refused save is a 500 with a fixed message. The `details` array of the 500 reply is not modelled.
- `authenticateToken` passes errors other than the two JWT errors (a failed user lookup) to `next(error)`. That path is not modelled.
- React state, rendering, `handleChange` clearing of messages, the loading flag and the network call of `login`/`signup` are not modelled. Only the validation functions, the navigation targets and the guard's decision are.
- `express-validator`'s `isLength` counts code points less the U+FE0E and U+FE0F presentation selectors. It is modelled on the Dafny string (Unicode scalar values), with the two selectors left out of the count; other combining marks count as characters, as they do there.
- `PassportController.Get`: the 403 clause is one-directional, because a non-Admin reading a record whose owner's account is gone gets a 500 first (see `PassportRoutes.MissingOwnerBreaksRead`).
- `PassportController.Pdf`: the 403 clause is one-directional for the same reason as `Get`.
- `AuthController.Login`: the contract speaks of the success case only. The failure cases are stated by `AuthController.LoginFailureIsUniform`.
- `Store.Newest`: its own contract bounds only the length. Soundness, order, completeness and count are the separate lemmas `NewestSound`, `NewestSorted`, `NewestComplete` and `NewestCount`.
- `SignupForm.SubmissionPassesServerRules`: holds only for passwords without presentation selectors or characters outside the Basic Multilingual Plane, because the browser counts both differently from the server (see `FormAcceptsSelectorPadding` and `FormAcceptsShortAstralPassword`).
- `AuthValidation.PasswordErrors`: the length rule follows `isLength`, so a password padded with presentation selectors can be refused by the server after the form accepted it.
- `backend/src/models/User.js` is not part of this model. Whether its `toJSON` drops the password hash from the signup and login replies is unknown, so their `Session` carries the stored account; the profile reply is projected by `select('-password')` and carries no hash.
- `PassportRoutes.Route`: a listing request goes to the intended `List` (newest first), not to `ListAsWritten`; so `Dispatch`, `Handle` and `DispatchFollowsPolicy` describe the listing order as intended. By `AsWrittenDiffersOnlyInOrder` the two agree on every status, count and page size.
- The store's scan order among tied documents (`Store.Arrange`'s rank) is a parameter: Mongo does not promise one.

## Findings

| source | as written | input that shows it | evidently intended | confidence | as-written member | corrected member |
|---|---|---|---|---|---|---|
| backend/src/controllers/passportController.js:121 | `.sort({ createdAt: -1 })`, but the schema stores the creation time as `created_at` (backend/src/models/Passport.js:75-78), so no document has the sort key and the order is the store's own | an Admin listing passports 0 (older) and 1 (newer) from a store that returns them in insertion order is shown 0 before 1 | newest first by `created_at`, the order the `created_at: -1` index serves | medium, not executed | `PassportController.ListAsWritten`, `PassportListing.AsWrittenCanListOldestFirst` | `PassportController.List`, `PassportListing.NewestFirst` |
