/**
 * The certificate record shared by the mock API and both dashboards
 * (the object literals of `mockCertificates` in src/lib/api.ts).
 * Every field is a string; `status` is compared against the literals
 * "revoked" and "active" only, so it stays a string here too.
 */
module Certificates {

  const Active: string := "active"
  const Revoked: string := "revoked"

  datatype Certificate = Certificate(
    id: string,
    studentName: string,
    course: string,
    grade: string,
    completionDate: string,
    institution: string,
    status: string,
    blockchainHash: string,  // opaque: nothing in the code reads or checks it
    issuedDate: string
  )

  /** No two rows of the table carry the same id. */
  predicate UniqueIds(certs: seq<Certificate>) {
    forall i, j :: 0 <= i < j < |certs| ==> certs[i].id != certs[j].id
  }

  /** `certs[i]` is the first row, in list order, whose id is `id`. */
  predicate FirstMatch(certs: seq<Certificate>, id: string, i: int) {
    && 0 <= i < |certs|
    && certs[i].id == id
    && forall j :: 0 <= j < i ==> certs[j].id != id
  }
}
