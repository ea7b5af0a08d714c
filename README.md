# Volunteer matching platform — a Dafny model of its core

The platform lets organisations post volunteering opportunities and
volunteers apply to them. Organisations accept, reject and complete
applications, exchange messages with volunteers and issue certificates.
Donations go through the Khalti e-payment gateway.

This project models the parts that decide what the platform does:

- **The Express handlers.** Signup, login, "me", the bearer-token
  middleware, the payment initiate / verify / callback handlers, the
  organisation's application and opportunity handlers, the public
  opportunity search, the profile read and update with the upload
  file-name rule, message sending and certificate issue.
- **Four React pages.** The logic of the signup form, the organisation
  dashboard, the volunteer dashboard and the payment return page.

How the model is organised:

- **Store.** The relational store is in-memory. The user and payment tables
  are maps keyed by id and by the gateway's `pidx`. The other tables are
  sequences of rows in insertion order.
- **Outside inputs.** The current time is a parameter. So are the
  JSON-web-token signer and verifier, the date parser, and every answer of
  the gateway or of a page's `fetch`.
- **Form.** A handler that writes is a method on the table it changes.
  Its `ensures` states the whole new state and the reply. A handler that
  only reads is a function, or a method that changes nothing. Each page is
  a class whose fields are the page's React state.

Three facts about the code shape the model:

- Passwords are stored and compared as plain text. There is no hashing, no
  migration at login and no reset or change-password flow.
- Emails are neither trimmed nor case-folded by the server.
- The error bodies carry the handler's own messages.

Modules, one per file:

- `wrappers.dfy`: `Option` and `Patch`.
- `text.dfy`: the JavaScript string operations `trim`, ASCII case mapping,
  `contains`, decimal text and `parseInt`.
- `http.dfy`: the reply envelope, page fetch outcomes and JavaScript
  truthiness.
- `ordering.dfy`: filter, count and stable sort.
- `schema.dfy`: the rows and the tables.
- One module for each core file.

## Model

| member | source | states |
|---|---|---|
| Auth.RoleOrDefault | backend/src/controllers/auth.controller.js:42 | A non-empty role is kept; otherwise the role is "VOLUNTEER". |
| Auth.NewUser | backend/src/controllers/auth.controller.js:37-46 | The new row has the given id, email and password, and a non-empty role equal to the defaulted one. |
| Auth.Signup | backend/src/controllers/auth.controller.js:7-79 | A missing name, email or password gives 400. An email already in the table gives 409. A role other than VOLUNTEER or ORGANIZATION, which the store's enumeration refuses, gives 500. All three leave the table untouched. Otherwise exactly one row is added under the next id, emails stay unique, and the 201 reply holds the password-free view and a token signed over exactly the user's id and email. |
| Auth.Login | backend/src/controllers/auth.controller.js:84-151 | A missing field gives 400. With both fields, login succeeds if and only if some user has exactly that email and that password. Every other case gives the same 401 text, so an unknown email and a wrong password cannot be told apart. A success returns that user's view and token. |
| Auth.GetCurrentUser | backend/src/controllers/auth.controller.js:156-193 | Fails with 404 if and only if the token's user id is not in the table. Otherwise it returns that row without password and role. |
| Auth.SignupThenLogin | backend/src/controllers/auth.controller.js:7-151 | After a successful signup, logging in with the same email and password succeeds and returns the same user view and token. |
| Middleware.SecondWord | backend/src/middleware/auth.middleware.js:10 | There is no second word if and only if the header has no space. The word returned has no space. |
| Middleware.BearerToken | backend/src/middleware/auth.middleware.js:10 | A token is found only in a given header that holds a space. |
| Middleware.SchemeNotChecked | backend/src/middleware/auth.middleware.js:10 | Whatever the first word is, the second word is the token. Anything after a further space is dropped. |
| Middleware.Authenticate | backend/src/middleware/auth.middleware.js:6-32 | A 401 if and only if no token is found. The request proceeds if and only if the verifier accepts the token, and carries exactly the verifier's claims. Every other refusal is a 403. |
| Middleware.NoTokenRefused | backend/src/middleware/auth.middleware.js:9-18 | A header with no space, or with an empty second word, is refused with 401. |
| Middleware.IssuedTokenAuthenticates | backend/src/middleware/auth.middleware.js:9-24 | A token the signer issued, sent as `Bearer <token>`, passes with its own claims whenever the verifier accepts what the signer produced. |
| Middleware.AuthenticateToken | backend/src/middleware/auth.middleware.js:6-32 | On success it attaches the claims, hands the request on exactly once and sends nothing. On failure it sends the decision, does not hand the request on and attaches nothing. |
| Payments.MapGatewayStatus | backend/src/controllers/payments.controller.js:103-108 | A lookup never yields INITIATED. Any status other than PENDING comes only from a gateway word whose upper-case form is that status's name, and each of COMPLETED, FAILED and REFUNDED is recognised in any letter case. |
| Payments.MapGatewayStatusNames | backend/src/controllers/payments.controller.js:103-108 | COMPLETED, FAILED, REFUNDED and PENDING are each recognised from their own name, in capitals or in small letters. |
| Payments.ToPaisa | backend/src/controllers/payments.controller.js:7-11 | There is an amount if and only if the rupee amount is positive, and it is then 100 times the rupee amount. |
| Payments.NonZero | backend/src/controllers/payments.controller.js:57 | An absent or zero opportunity id becomes null; any other id is kept. |
| Payments.CallerId | backend/src/controllers/payments.controller.js:20 | The payer is recorded if and only if a caller with a non-zero id is known, and it is that id. |
| Payments.RequestFor | backend/src/controllers/payments.controller.js:22-35 | The gateway request returns the donor to `<site>/payment-return`, carries the amount in paisa and an order id `order_<time>`, and never sends an empty order name, customer name or email. |
| Payments.NewPayment | backend/src/controllers/payments.controller.js:51-65 | The stored payment is INITIATED, has the gateway's pidx and the amount, has no transaction id, and has metadata with exactly the keys name, email, orderId and orderName. |
| Payments.PidxOf | backend/src/controllers/payments.controller.js:76 | The body's pidx is used when it is truthy; otherwise the query string's pidx is used. |
| Payments.Recorded | backend/src/controllers/payments.controller.js:103-120 | After a lookup, the row keeps its pidx, amount, payer and opportunity. It takes the mapped status, which is never INITIATED, and the transaction id or null. The metadata gains `rawVerify` and keeps every other key. |
| Payments.VerifyStep | backend/src/controllers/payments.controller.js:74-127 | A missing pidx gives 400 and an unknown one gives 404. A gateway call that throws gives 500 "Payment verification failed" and a gateway refusal passes on its status and detail; neither changes the table. The gateway is asked if and only if the payment exists and is not settled. A settled payment is answered with 200 "Payment already verified" and its stored row. A successful lookup stores and returns `Recorded(p, data)`: the mapped status, the transaction id or null, and the metadata with `rawVerify` added. No row other than the one verified changes. |
| Payments.TerminalIsAbsorbing | backend/src/controllers/payments.controller.js:86-88 | Verifying a settled payment asks nobody, changes nothing and answers "Payment already verified" with the stored row. |
| Payments.StatusMovesForward | backend/src/controllers/payments.controller.js:86-120 | A settled status never changes, and nothing that was past INITIATED goes back to it. |
| Payments.CompletedOnlyFromGateway | backend/src/controllers/payments.controller.js:99-108 | A payment becomes COMPLETED only when the gateway's lookup succeeded and reported "completed" in some letter case. |
| Payments.VerifyIdempotent | backend/src/controllers/payments.controller.js:74-127 | Verifying a second time with the same gateway answer leaves the table as the first verification left it. |
| Payments.MetadataKept | backend/src/controllers/payments.controller.js:115-118 | Every metadata entry other than `rawVerify` survives a verification unchanged. |
| Payments.PaymentLedger.Initiate | backend/src/controllers/payments.controller.js:13-72 | A missing or zero amount gives 400 and a negative one gives 500, and neither contacts the gateway. A gateway refusal passes on the gateway's status and detail, and a gateway call that throws gives 500 "Payment initiation failed"; neither changes the table. A pidx already stored gives 500. Otherwise exactly one INITIATED row is added and the reply carries the pidx and the payment URL. |
| Payments.PaymentLedger.Verify | backend/src/controllers/payments.controller.js:74-127 | The reply, the new table and the pidx sent to the gateway are exactly those of `VerifyStep`, with the pidx chosen from the body or the query string. |
| Payments.PaymentLedger.Callback | backend/src/controllers/payments.controller.js:129-142 | A callback without a pidx gives 400 and changes nothing. Otherwise it is exactly a verification of the body's pidx. |
| Payments.DonateThenVerify | backend/src/controllers/payments.controller.js:13-127 | A donation the gateway accepts is stored with 100 times its rupee amount, and the first verification returns the status the gateway's lookup maps to. |
| Applications.FindApplication | backend/src/controllers/application.controller.js:64-67 | Finds a row with the requested id, or none if and only if no row has that id. |
| Applications.OpportunityOf | backend/src/controllers/application.controller.js:64-66 | The joined opportunity has the requested id, and there is none if and only if no opportunity has that id. |
| Applications.Listed | backend/src/controllers/application.controller.js:7-29 | The list holds exactly the organisation's applications, each as many times as it is stored, newest first. |
| Applications.Format | backend/src/controllers/application.controller.js:32-41 | A row keeps the application's id, status, volunteer and opportunity, carries the volunteer's name and the opportunity's title, has skills "N/A", and has an applied date that is a prefix of the ISO time without a `T`. |
| Applications.AppliedDateIsDatePart | backend/src/controllers/application.controller.js:40 | For an ISO time `<date>T<time>`, the applied date is `<date>`. |
| Applications.ListedJoined | backend/src/controllers/application.controller.js:13-27 | Every listed application has a volunteer and an opportunity to join. |
| Applications.OrgApplications | backend/src/controllers/application.controller.js:3-55 | The reply is the formatted listed applications, one row each, in the listed order. |
| Applications.OrgApplicationsExact | backend/src/controllers/application.controller.js:7-12 | Every application of the caller's opportunities is shown, and every row shown belongs to one of the caller's opportunities. |
| Applications.UpdateApplicationStatus | backend/src/controllers/application.controller.js:57-94 | A non-numeric id gives 500. An unknown application, or one of another organisation, gives 403. A failure leaves the table untouched. Otherwise only that row's status changes, to the body's status or, when the body has none, to its old status; the reply carries the updated row. |
| Opportunities.CreateOpportunity | backend/src/controllers/opportunity.controller.js:3-39 | A missing title or date gives 400; an unreadable date, or a caller who is not a user (the store's organisation relation refuses the row), gives 500; all leave the table untouched. Otherwise one row owned by the caller is appended under the next id, and the 201 reply carries it. Every stored opportunity keeps naming a user. |
| Opportunities.Applicants | backend/src/controllers/opportunity.controller.js:47-49 | The count is at most the number of applications, and zero if and only if no application names the opportunity. |
| Opportunities.OrgListed | backend/src/controllers/opportunity.controller.js:44-52 | Exactly the organisation's opportunities, each as many times as it is stored, newest first. |
| Opportunities.OrgStatus | backend/src/controllers/opportunity.controller.js:58 | "Active" if and only if the date is still ahead, otherwise "Completed". |
| Opportunities.OrgOpportunities | backend/src/controllers/opportunity.controller.js:41-73 | One row per listed opportunity, in order, with its application count and its status at the given time. |
| Opportunities.Clauses | backend/src/controllers/opportunity.controller.js:86-90 | Three alternatives, one per searched column, all with the same text. |
| Opportunities.BuildWhere | backend/src/controllers/opportunity.controller.js:77-101 | The cut-off is now. There are alternatives if and only if a category or a search text is given. A category's clauses come first, and every clause carries the trimmed category or the trimmed search text. |
| Opportunities.MatchesClauses | backend/src/controllers/opportunity.controller.js:86-90 | Some alternative holds if and only if the title, the description or the required skills contain the text. |
| Opportunities.MatchesIff | backend/src/controllers/opportunity.controller.js:79-101 | An opportunity passes the filter if and only if it is upcoming and, when a category or a search text is given, it mentions the trimmed category or the trimmed search text. |
| Opportunities.QueryWidens | backend/src/controllers/opportunity.controller.js:93-101 | Adding a search text to a category never removes an opportunity from the result. |
| Opportunities.BlankCategoryKeepsAll | backend/src/controllers/opportunity.controller.js:83-90 | A category of white space alone filters nothing out. |
| Opportunities.Selected | backend/src/controllers/opportunity.controller.js:103-117 | Exactly the stored opportunities that pass the filter, each as many times as it is stored, all upcoming, soonest first. |
| Opportunities.AllOpportunities | backend/src/controllers/opportunity.controller.js:75-138 | One row per selected opportunity, in order, with its organisation's name, its application count and status "Active". |
| Upload.BaseName | backend/src/controllers/profile.controller.js:55 | The base name of a path holds no slash. |
| Upload.BaseNameOfJoin | backend/src/controllers/profile.controller.js:55 | The base name of `<dir>/<file>` is `<file>`. |
| Upload.ComponentExt | backend/src/routes/profile.route.js:18 | The extension is a suffix of the name that is empty or begins with its only dot, and is never the whole name. |
| Upload.Stem | backend/src/routes/profile.route.js:19 | The stem followed by the extension is the base name. |
| Upload.Sanitize | backend/src/routes/profile.route.js:19 | The result is no longer than the input and holds only ASCII letters, digits, `_` and `-`. |
| Upload.SanitizeAppend | backend/src/routes/profile.route.js:19 | The filter works character by character: it distributes over concatenation. |
| Upload.SanitizeKeepsAllowed | backend/src/routes/profile.route.js:19 | A name made only of allowed characters is left unchanged. |
| Upload.SanitizeIdempotent | backend/src/routes/profile.route.js:19 | Filtering twice is filtering once. |
| Upload.NoSlashInParts | backend/src/routes/profile.route.js:18-19 | Neither the filtered stem nor the extension holds a slash. |
| Upload.StoredFilenameShape | backend/src/routes/profile.route.js:17-21 | The stored name is one non-empty path component. Before its first dash is the upload time; it ends with the original extension, unchanged. |
| Profile.Loaded | backend/src/controllers/profile.controller.js:57-62 | A missing or unreadable mapping file counts as the empty object. |
| Profile.ImageUrlFor | backend/src/controllers/profile.controller.js:24-32 | There is a picture URL if and only if the mapping has a non-empty entry under the user id's decimal text, and it is that entry. |
| Profile.GetProfile | backend/src/controllers/profile.controller.js:5-37 | A 404 if and only if the caller is not in the table. Otherwise the reply is every column but the password, plus the picture URL. |
| Profile.Patched | backend/src/controllers/profile.controller.js:41-51 | Exactly the fields the body names take their new values. The update time is stamped, and id, email, role, password and creation time do not move. |
| Profile.KeepsTableValid | backend/src/controllers/profile.controller.js:48-51 | Replacing a user row by one with the same id and email keeps ids and emails unique. |
| Profile.UpdateProfile | backend/src/controllers/profile.controller.js:39-90 | An unknown caller gives 500 and changes nothing. Otherwise only the caller's row changes, to the patched row. An upload rewrites the mapping with the caller's entry set to `/uploads/<base name>`. The reply carries the new fields and the URL read back. |
| Profile.UploadKeepsOtherEntries | backend/src/controllers/profile.controller.js:57-64 | An upload leaves every other user's picture as it was. An unreadable file is replaced by one that holds only the new entry. |
| Profile.UploadThenGetProfile | backend/src/controllers/profile.controller.js:54-86 | After an upload, both the update's reply and a later read show `/uploads/<stored file name>`. |
| Messages.Receiver | backend/src/controllers/message.controller.js:18 | The receiver is linked if and only if `parseInt` of the body's value is the id of a user. |
| Messages.ReceiverFromText | backend/src/controllers/message.controller.js:18 | A receiver id sent as decimal text links the message to that user. |
| Messages.SendMessage | backend/src/controllers/message.controller.js:3-36 | A falsy receiver or content gives 400 and a receiver that is not a user gives 500; neither changes the table. Otherwise one message from the caller, never from a body field, is appended and returned with 201. |
| Certificates.CertificateUrl | backend/src/controllers/certificate.controller.js:9 | The URL starts with the fixed certificate prefix and ends in `.pdf`. |
| Certificates.SplitUrl | backend/src/controllers/certificate.controller.js:9 | `<prefix><a>-<b>.pdf` determines `a` and `b` when `a` has no dash. |
| Certificates.CertificateUrlInjective | backend/src/controllers/certificate.controller.js:9 | Different pairs of numeric ids give different certificate URLs. |
| Certificates.LinkedId | backend/src/controllers/certificate.controller.js:13-14 | An id is linked if and only if `parseInt` of the body's value is an existing row's id. |
| Certificates.GenerateCertificate | backend/src/controllers/certificate.controller.js:3-32 | For any caller and any existing pair of user and opportunity, exactly one certificate row is appended and its URL returned with 201. Otherwise the reply is 500 and nothing changes. |
| SignupForm.ValidEmail | frontend/src/pages/Signup.jsx:63 | The page's test accepts an address if and only if it is in the language of `^[^\s@]+@[^\s@]+\.[^\s@]+$`. |
| SignupForm.NotPatternWithoutAt | frontend/src/pages/Signup.jsx:63 | Text without `@` never matches the pattern. |
| SignupForm.EmailPatternSplit | frontend/src/pages/Signup.jsx:63 | Split at its first `@`, an address matches if and only if the local part is non-empty and plain and the domain is plain with an inner dot. |
| SignupForm.ValidateForm | frontend/src/pages/Signup.jsx:54-76 | A form passes if and only if name and email are not blank, the email matches the pattern, and the password is non-empty with a JavaScript length (UTF-16 code units) of at least 6. Each failing check, in the page's order, gives its own message: name, email, email pattern, password required, password length. |
| Text.Utf16Length | frontend/src/pages/Signup.jsx:71 | The length JavaScript reports is between the number of characters and twice that, and is zero only for the empty text. |
| Text.Utf16LengthAppend | frontend/src/pages/Signup.jsx:71 | The length of a concatenation is the sum of the lengths, for all texts. |
| Text.Utf16LengthInBmp | frontend/src/pages/Signup.jsx:71 | A text with no character above U+FFFF has length equal to its number of characters, so an ordinary password is measured character by character. |
| Text.Utf16LengthAstral | frontend/src/pages/Signup.jsx:71 | A text made only of characters above U+FFFF has twice as many code units as characters, so three such characters already pass the 6-character check. |
| SignupForm.SurroundingSpaceRejected | frontend/src/pages/Signup.jsx:59-66 | An email with white space at either end passes the blank check but fails the pattern. |
| SignupForm.TrimmedOrNull | frontend/src/pages/Signup.jsx:97-98 | Null if and only if the text is blank; otherwise the trimmed text. |
| SignupForm.BuildPayload | frontend/src/pages/Signup.jsx:92-99 | The sent body has the trimmed name, the trimmed lower-case email, the password and role as typed, and skills and location trimmed or null. |
| SignupForm.PatternHasNoSpace | frontend/src/pages/Signup.jsx:63 | An address that matches the pattern has no white space. |
| SignupForm.ValidFormPassesSignupCheck | frontend/src/pages/Signup.jsx:78-99 | A form the page lets through never hits the server's 400, and the email it sends is the typed one in small letters. |
| SignupForm.RedirectFor | frontend/src/pages/Signup.jsx:119-123 | The page navigates if and only if the role is VOLUNTEER or ORGANIZATION, to that role's dashboard. |
| SignupForm.SignupPage.Submit | frontend/src/pages/Signup.jsx:83-129 | The body is sent once and the spinner is off afterwards. A throw shows its message or a default; a refusal shows the server's message or "Signup failed". Neither touches storage or location. A success stores token, role and id only when there is a token, and navigates for a known role. |
| SignupForm.SignupPage.HandleSubmit | frontend/src/pages/Signup.jsx:78-130 | An invalid form shows its message and sends nothing. A valid one sends exactly `BuildPayload(form)`; the error line is empty if and only if signup succeeded, and a failure never stores or navigates. |
| OrgDashboard.FetchResource | frontend/src/pages/OrganizationDashboard.jsx:53-65 | A successful load gives the reply's list; a failed or thrown one gives the empty list. |
| OrgDashboard.PendingCount | frontend/src/pages/OrganizationDashboard.jsx:78 | At most the number of applications, and zero if and only if none is PENDING. |
| OrgDashboard.VolunteerIds | frontend/src/pages/OrganizationDashboard.jsx:79 | Exactly the volunteers named by the list, no more of them than rows. |
| OrgDashboard.ActiveVolunteers | frontend/src/pages/OrganizationDashboard.jsx:79 | Never more than the number of ACCEPTED applications. |
| OrgDashboard.AcceptedVolunteerIds | frontend/src/pages/OrganizationDashboard.jsx:79 | A volunteer is in the set if and only if some ACCEPTED application names them. |
| OrgDashboard.ActiveVolunteersCountsDistinct | frontend/src/pages/OrganizationDashboard.jsx:79 | For every list, the figure is the number of distinct volunteers with an ACCEPTED application. |
| OrgDashboard.ActiveVolunteersAppend | frontend/src/pages/OrganizationDashboard.jsx:79 | One more application raises the figure by one exactly when it is ACCEPTED and its volunteer had no accepted application yet; otherwise the figure stays. |
| OrgDashboard.StatsFrom | frontend/src/pages/OrganizationDashboard.jsx:77-88 | The figures are the user's name and email, the number of opportunities, the pending count, the distinct accepted volunteers (at most the accepted count) and zero certificates. |
| OrgDashboard.WithStatus | frontend/src/pages/OrganizationDashboard.jsx:154-156 | Same length, same order and same ids; only rows with the acted-on id change, and only in their status. |
| OrgDashboard.DecidingLowersPending | frontend/src/pages/OrganizationDashboard.jsx:154-156 | Setting any status other than PENDING never raises the pending figure. |
| OrgDashboard.StatusColor | frontend/src/pages/OrganizationDashboard.jsx:223-231 | The grey badge is used if and only if the status is none of the four known ones. |
| OrgDashboard.Actions | frontend/src/pages/OrganizationDashboard.jsx:484-531 | Accept and Reject are shown if and only if the status is PENDING, Mark Complete if and only if ACCEPTED, Certificate if and only if COMPLETED; the message button always. |
| OrgDashboard.OfferedMovesForward | frontend/src/pages/OrganizationDashboard.jsx:484-509 | Every status-setting button moves an application forward, and only PENDING or ACCEPTED applications have one. |
| OrgDashboard.Dashboard.FetchDashboardData | frontend/src/pages/OrganizationDashboard.jsx:47-111 | Each list is replaced only by a successful load. The figures change only when the user loads, and then are computed from the loaded lists, with a failed load counting as empty. The loading flag is cleared. |
| OrgDashboard.Dashboard.HandleApplicationAction | frontend/src/pages/OrganizationDashboard.jsx:138-164 | A failed update leaves lists, figures and the loading flag as they were. A successful one sets the row's status locally; the refresh then replaces each list it loads successfully and, when the user loads, recomputes the figures from the loaded lists. |
| VolunteerDashboard.PendingCount | frontend/src/pages/VolunteerDashboard.jsx:65 | At most the number of applications, and zero if and only if none is PENDING. |
| VolunteerDashboard.AcceptedCount | frontend/src/pages/VolunteerDashboard.jsx:66 | At most the number of applications, and zero if and only if none is ACCEPTED or COMPLETED. |
| VolunteerDashboard.StatsFrom | frontend/src/pages/VolunteerDashboard.jsx:64-75 | The figures are the user's name and email, the number of applications and certificates, and the pending and accepted counts. |
| VolunteerDashboard.PendingAndAcceptedWithinTotal | frontend/src/pages/VolunteerDashboard.jsx:65-66 | Pending plus accepted never exceeds the number of applications. |
| VolunteerDashboard.HasApplied | frontend/src/pages/VolunteerDashboard.jsx:127-129 | True if and only if some application is for the opportunity. |
| VolunteerDashboard.ButtonFor | frontend/src/pages/VolunteerDashboard.jsx:329-348 | "Apply Now" is shown if and only if no application is for the opportunity. |
| VolunteerDashboard.AppliedNotOfferedAgain | frontend/src/pages/VolunteerDashboard.jsx:127-129 | Once an application for an opportunity is in the list, the page no longer offers to apply to it. |
| VolunteerDashboard.Dashboard.FetchDashboardData | frontend/src/pages/VolunteerDashboard.jsx:37-82 | When all five loads succeed, all four lists and the figures are replaced. A single failure leaves every one of them as it was. The loading flag is cleared. |
| VolunteerDashboard.Dashboard.HandleApply | frontend/src/pages/VolunteerDashboard.jsx:84-114 | Without a selection nothing changes at all. A success alerts, closes the modal, clears the form and the selection, and refreshes: all four lists and the figures come from the refresh when all five loads succeed, and all stay as they were otherwise. A refusal or a throw alerts "Error applying: " with the message and keeps the selection, the modal, the form, the lists and the figures. |
| PaymentReturn.GuardKey | frontend/src/pages/PaymentReturn.jsx:16 | The key is the fixed prefix followed by the pidx. |
| PaymentReturn.GuardKeyInjective | frontend/src/pages/PaymentReturn.jsx:16 | Different payment ids have different guard keys. |
| PaymentReturn.FailureText | frontend/src/pages/PaymentReturn.jsx:30-33 | Never empty; the server's message when it has one. |
| PaymentReturn.Page.Run | frontend/src/pages/PaymentReturn.jsx:8-44 | The server is asked if and only if there is a pidx and this session has not marked it. A missing pidx, an already marked one, a refusal and a throw each set their own status and message, and none of them touches storage. Only a success shows the payment's status and marks the pidx. |
| PaymentReturn.ReturnTwiceWhilePending | frontend/src/pages/PaymentReturn.jsx:16-38 | With the gateway still reporting pending, a second visit in the same session asks nobody and shows COMPLETED, while the stored payment is PENDING. |

## Left out

- Password hashing, login-time migration, forgot/reset/change-password and reset tokens: none of them exists in the code modelled.
- Token signing and verification (the `jsonwebtoken` library, its secret and its seven-day expiry) are the parameters `sign` and `verify`. `backend/src/utils/jwt.util.js` is not part of this model beyond that.
- The Khalti HTTP calls, the `fetch` calls of the pages and the store's queries are inputs. Their answers are parameters. A page request that throws is the `Threw` outcome; a Khalti call that throws is `InitiateThrew` or `LookupThrew`.
- Payments.ToPaisa: works on whole rupees only. `Math.round(Number(x) * 100)` on fractional or textual amounts, and its NaN case, are not modelled because floating point is out of scope.
- Payments.PaymentLedger.Verify: the 500 reply for a payment deleted between the lookup and the update (payments.controller.js:123-126) is not modelled, because the model has no concurrent writers.
- Auth.GetCurrentUser: the reply's data is the view itself, not the `{ user }` object that wraps it, and its absent message is the empty string.
- Applications.UpdateApplicationStatus: stores any status text. The store's enumeration would refuse an unknown word with a 500, and that refusal is left out.
- Unique and foreign-key constraints are modelled where a handler depends on them: email and pidx uniqueness, and membership of the linked ids. The store's error texts and codes are the handlers' own 500 replies.
- `parseInt` giving NaN for a path or body id leads to the handler's 500. The model takes that as the store refusing a NaN id.
- `updatedAt` is the update's `now`. ISO timestamp texts are carried as given, because date formatting belongs to the date library.
- Text case mapping is ASCII-only. The store's `contains` is case-sensitive here; the collation of the real database is not modelled.
- A mapping file that parses to a JSON value other than an object is treated as an unreadable file.
- Upload.Stem: follows `path.basename(p, ext)` for the names the upload filter produces. Node's corner cases for names equal to their own extension are not modelled.
- Sorts are stable here. The store's order among rows with equal sort keys is unspecified, so the model does not claim it.
- The organisation page also fetches the conversation list (OrganizationDashboard.jsx:95-99); it changes no state and is left out.
- Alerts other than the volunteer page's apply alert, modals and rendering are left out. So is every page handler the model does not name, such as creating opportunities, messages and certificates from the pages.
- React's asynchronous state updates, `Promise.all` concurrency and the fact that the refresh after an action is not awaited are left out. The model runs each handler to completion in order.
- Express wiring is not modelled: the rate limiter, body parsing, static files, the 404 handler and the route table.
  - `payments.route.js` is not mounted by `index.route.js`, so the payment handlers are modelled as reachable, with the caller as an optional input.
  - The volunteer page's messages load goes to `/volunteer/messages/my`, which only the `/messages/:userId` route matches. That handler is not part of this model, so the load's outcome is an input.
- `getVolunteerApplications` and `getMyCertificates` are not part of this model. The volunteer page takes their rows in the shapes `VolunteerApplication` and `Certificate`.
