# EduAuth certificate table — a Dafny model

EduAuth is a front end that mocks a certificate verification product. Its
logic is small. There is one in-memory table of certificate records,
`mockCertificates`, and three operations over it:

- the mock API (`src/lib/api.ts`) looks up a certificate id and classifies it
  as not found, revoked or valid. It lists the table and computes the id an
  issue would get, which is `CERT-2024-` followed by the table size plus one,
  zero-padded to at least three digits;
- the institution dashboard (`src/pages/InstitutionDashboard.tsx`) revokes a
  certificate. Its state starts as the `mockCertificates` array itself. Revoking
  maps over that list and sets `status` to `"revoked"` on every row with the
  given id. The `map` and the spread build new values, so `mockCertificates`
  never changes. After an issue the dashboard shows a preview record;
- the student dashboard (`src/pages/StudentDashboard.tsx`) shows the first two
  active certificates, in list order.

Modules:

- `Wrappers` holds `Option`.
- `Certificates` holds the record datatype, whose nine fields are all strings.
  `status` stays a string, because the code compares it with `"revoked"` in the
  API and with `"active"` in the dashboards. Any other value is possible.
- `JsString` holds the two JavaScript built-ins the id uses: `String(n)` and
  `padStart`. It also holds their inverse, `ParseDigits`.
- `Api` holds the seed table, `find`, `verifyCertificate`, `getCertificates`
  and `issueCertificate`. The table is a parameter `certs`; the app's code
  always uses `MockCertificates`.
- `InstitutionDashboard` holds the pure revoke map `RevokeAll` with its lemmas.
  It also holds the class `Dashboard`, with the component's three state
  variables (`isLoading`, `certificates`, `previewCert`) as fields.
- `StudentDashboard` holds the filter and slice selection.

All API operations are functions of the table, and nothing writes the table.
So verify is idempotent, and two issues return the same id, by construction.
The dashboard revokes rows in its own state only. `Api.VerifyCertificate` on
`MockCertificates` therefore still reports `CERT-2024-001` as valid after the
dashboard revokes it (`Api.SeedTableVerification`).
`InstitutionDashboard.VerifyAfterRevoke` states what verify would answer
against the revoked list.

Notes on the code:

- issue does not append a record, so ids repeat (`Api.IssueOnSeedTable`);
- verify has no "tampered" outcome, and the hash is never checked;
- revoking an unknown id leaves the list unchanged and raises no error (`RevokeAbsentId`), though the "Certificate Revoked" toast still appears;
- revoking an already revoked id also leaves the list unchanged (`RevokeIdempotent`), and the toast appears again;
- there is no authorization check.

## Model

| member | source | states |
|---|---|---|
| JsString.NatToString | src/lib/api.ts:74 | `String(n)` is a non-empty run of decimal digits with no leading zero |
| JsString.ParseNatToString | src/lib/api.ts:74 | reading back the decimal form of `n` gives `n` |
| JsString.NatToStringLength | src/lib/api.ts:74 | the decimal form has 1, 2 or 3 digits for `n` below 10, 100 or 1000, and more than 3 from 1000 on |
| JsString.PadStart | src/lib/api.ts:74 | `padStart` yields as many characters as the larger of the target length and the length of `s`, ending in `s` and preceded only by the pad character |
| JsString.ParsePadStart | src/lib/api.ts:74 | zero-padding keeps the string all digits and keeps its value |
| Api.Find | src/lib/api.ts:55 | `find` returns nothing exactly when no row has the id; otherwise it returns a row of the table with that id |
| Api.FindFirst | src/lib/api.ts:55 | `find` returns the first row in list order whose id matches |
| Api.VerifyCertificate | src/lib/api.ts:53-63 | data is absent exactly when no row has the id; when present it is a row with that id; success holds exactly when data is present and its status is not "revoked"; the message is the not-found, valid or revoked text accordingly |
| Api.VerifyNotFound | src/lib/api.ts:55-58 | an id no row carries gives success false, "Certificate not found" and no data |
| Api.VerifyRevoked | src/lib/api.ts:59-61 | when the first row with the id is revoked, the answer is success false, "Certificate has been revoked", and that row |
| Api.VerifyValid | src/lib/api.ts:62 | when the first row with the id has any other status, the answer is success true, "Certificate is valid", and that row |
| Api.VerifySuccessUniqueIds | src/lib/api.ts:55-62 | with unique ids, success holds exactly when some row has the id and is not revoked |
| Api.SeedTableShape | src/lib/api.ts:12-46 | the seed table has unique ids; its first two rows are active and its third is revoked |
| Api.GetCertificates | src/lib/api.ts:65-68 | the listing is the seed table itself |
| Api.GetCertificatesVerify | src/lib/api.ts:53-68 | verifying any listed id returns that very row |
| Api.NextCertificateId | src/lib/api.ts:74 | the issued id starts with "CERT-2024-" and ends in at least three decimal digits |
| Api.NextCertificateIdNumber | src/lib/api.ts:74 | the issued id is "CERT-2024-" followed by digits whose value is the table size plus one |
| Api.NextCertificateIdInjective | src/lib/api.ts:74 | two table sizes give the same id exactly when they are equal |
| Api.NextCertificateIdLength | src/lib/api.ts:74 | the numeric suffix has at least 3 characters, and exactly 3 precisely when the table has fewer than 999 rows |
| Api.IssueCertificate | src/lib/api.ts:70-77 | issue always succeeds, its id is the padded id for the table size, which carries sequence number table size plus one, and its hash is the random string |
| Api.IssueOnSeedTable | src/lib/api.ts:70-77 | on the seed table every issue returns "CERT-2024-004", whatever the form, and no seeded row has that id |
| Api.SeedTableVerification | src/lib/api.ts:12-63 | on the seed table CERT-2024-001 and CERT-2024-002 are valid, CERT-2024-003 is revoked and CERT-9999-999 is not found |
| InstitutionDashboard.RevokeOne | src/pages/InstitutionDashboard.tsx:68 | a record with the id becomes "revoked" and any other keeps its status; every other field is kept |
| InstitutionDashboard.RevokeAll | src/pages/InstitutionDashboard.tsx:66-70 | the revoked list has the same length, and each row is the per-row revoke of the row at the same index |
| InstitutionDashboard.RevokeAllEffect | src/pages/InstitutionDashboard.tsx:68 | every row with the id becomes "revoked", every other row is unchanged, and a revoked row differs only in `status` |
| InstitutionDashboard.RevokeAbsentId | src/pages/InstitutionDashboard.tsx:66-70 | revoking an id no row carries returns the list unchanged |
| InstitutionDashboard.RevokeIdempotent | src/pages/InstitutionDashboard.tsx:68 | revoking the same id twice equals revoking it once |
| InstitutionDashboard.RevokeStatusMonotone | src/pages/InstitutionDashboard.tsx:68 | a status either stays or becomes "revoked", and a revoked row stays revoked |
| InstitutionDashboard.RevokeKeepsIds | src/pages/InstitutionDashboard.tsx:66-70 | every id stays at its index, so the order is kept |
| InstitutionDashboard.FindAfterRevoke | src/pages/InstitutionDashboard.tsx:66-70 | `find` on the revoked list returns the revoked version of what it found before |
| InstitutionDashboard.VerifyAfterRevoke | src/pages/InstitutionDashboard.tsx:66-70 | against the revoked list, the revoked id never verifies and reports "revoked" if it exists; other ids verify as before |
| InstitutionDashboard.RevokeOfferedRow | src/pages/InstitutionDashboard.tsx:214-218 | the button is shown only for an active row (`RevokeOffered`), and revoking through it turns that row from "active" to "revoked" with every other field kept |
| InstitutionDashboard.PreviewRecord | src/pages/InstitutionDashboard.tsx:37-44 | the preview has status "active", institution "Tech University", the issued id and hash, the form's fields and today's date |
| InstitutionDashboard.SeedIssuePreview | src/pages/InstitutionDashboard.tsx:37-44 | on the seed table the preview's id is "CERT-2024-004", it is active, and it is not a row of the table |
| InstitutionDashboard.Dashboard.constructor | src/pages/InstitutionDashboard.tsx:17-19 | the dashboard starts not loading, with the seed list, without a preview, and with every status "active" or "revoked" |
| InstitutionDashboard.Dashboard.HandleRevoke | src/pages/InstitutionDashboard.tsx:65-76 | the list becomes its revoked map; loading and preview are unchanged; every status stays "active" or "revoked" |
| InstitutionDashboard.Dashboard.ClickRevoke | src/pages/InstitutionDashboard.tsx:214-219 | clicking the button of an active row revokes that row's id, and that row changes only its status, to "revoked" |
| InstitutionDashboard.Dashboard.HandleIssueCertificate | src/pages/InstitutionDashboard.tsx:21-63 | after an issue, loading is off, the list is unchanged, and the preview is the record built from the form and the API's answer |
| StudentDashboard.FilterActive | src/pages/StudentDashboard.tsx:19 | the filter keeps exactly the rows with status "active", each as many times as it occurs in the input, and drops every other row |
| StudentDashboard.Slice | src/pages/StudentDashboard.tsx:19 | `slice(0, n)` is the prefix of length `min(n, length)` |
| StudentDashboard.StudentCerts | src/pages/StudentDashboard.tsx:19 | the view has at most 2 records, all active, and it is a prefix of the active rows; it is all of them when there are fewer than 2 |
| StudentDashboard.FilterActiveIsSubsequence | src/pages/StudentDashboard.tsx:19 | the active rows keep their original order |
| StudentDashboard.StudentCertsIsSubsequence | src/pages/StudentDashboard.tsx:19 | the view is an order-preserving subsequence of the table |
| StudentDashboard.StudentCertsExactlyTwo | src/pages/StudentDashboard.tsx:19 | with at least two active rows, the view is exactly the first two active rows |
| StudentDashboard.SeedStudentView | src/pages/StudentDashboard.tsx:19 | on the seed table the view is CERT-2024-001 and CERT-2024-002, without the revoked CERT-2024-003 |

## Left out

- Api.VerifySuccessUniqueIds: states "success exactly when some row has the id and is not revoked" for tables with unique ids only. With duplicate ids the first row decides (`Api.VerifyRevoked`, `Api.VerifyValid`), and the plain statement fails.
- The `delay`/`setTimeout` promises and the `async` wrappers are timing only. The operations are modelled as synchronous.
- The `Math.random` hash in `issueCertificate` is the parameter `randomHash`. The clock date in the preview is the parameter `today`.
- The `API_ENDPOINTS` URL table is left out; nothing reads it in the modelled code.
- The `FormData` reading, `e.preventDefault`, the form reset and the toasts are DOM and UI side effects. The form is given as an `IssueForm` value.
- The `catch` branch of `handleIssueCertificate` is left out. The mock `issueCertificate` never throws, but `e.currentTarget.reset()` runs after the `await`. By then React has set the event's `currentTarget` to null, so on a successful issue that call throws. The `catch` then shows the "Failed to issue certificate" toast, and the form is not reset. The modelled state is the same either way: the preview is already set and `finally` clears `isLoading`.
- Rendering is left out. That covers the certificate table, the badges and the preview card. Only the revoke-button guard is modelled (`RevokeOffered`, `Dashboard.ClickRevoke`).
- src/pages/Verify.tsx is left out. It is React state around the API call, with a blank-input guard and an error fallback.
- src/components/QRCodeModal.tsx (QR rendering, canvas export, sharing, clipboard) is left out. These are browser APIs and foreign libraries.
- Authentication, navigation, the landing and layout components, and the role switch are left out. They are presentation with no logic.
- Integrity proofs, tamper detection and authorization checks are not in the code and are not modelled.
