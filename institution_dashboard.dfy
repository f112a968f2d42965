/**
 * The institution dashboard (src/pages/InstitutionDashboard.tsx): its
 * certificate list, revocation of a certificate by id, the revoke button
 * guard, and the preview record shown after an issue.
 */
module InstitutionDashboard {
  import opened Wrappers
  import opened Certificates
  import Api

  /** The arrow of `handleRevoke`'s map: `{ ...cert, status: "revoked" }` on a matching id. */
  function RevokeOne(cert: Certificate, certId: string): (r: Certificate)
    ensures r == cert.(status := r.status)
    ensures r.status == if cert.id == certId then Revoked else cert.status
  {
    if cert.id == certId then cert.(status := Revoked) else cert
  }

  /** `certs.map(cert => RevokeOne(cert, certId))`. */
  function RevokeAll(certs: seq<Certificate>, certId: string): (r: seq<Certificate>)
    ensures |r| == |certs|
    ensures forall i :: 0 <= i < |certs| ==> r[i] == RevokeOne(certs[i], certId)
  {
    if certs == [] then [] else [RevokeOne(certs[0], certId)] + RevokeAll(certs[1..], certId)
  }

  /**
   * After revoking `certId`, every row with that id is revoked, every other
   * row is exactly as before, and in a revoked row only `status` changed.
   */
  lemma RevokeAllEffect(certs: seq<Certificate>, certId: string)
    ensures var r := RevokeAll(certs, certId);
      && (forall i :: 0 <= i < |certs| && certs[i].id == certId ==> r[i].status == Revoked)
      && (forall i :: 0 <= i < |certs| && certs[i].id != certId ==> r[i] == certs[i])
      && (forall i :: 0 <= i < |certs| ==> r[i] == certs[i].(status := r[i].status))
  {
  }

  /** Revoking an id no row carries leaves the list as it was. */
  lemma RevokeAbsentId(certs: seq<Certificate>, certId: string)
    requires forall i :: 0 <= i < |certs| ==> certs[i].id != certId
    ensures RevokeAll(certs, certId) == certs
  {
  }

  /** Revoking the same id twice is the same as revoking it once. */
  lemma RevokeIdempotent(certs: seq<Certificate>, certId: string)
    ensures RevokeAll(RevokeAll(certs, certId), certId) == RevokeAll(certs, certId)
  {
  }

  /** A status only ever stays or becomes "revoked": nothing goes back to active. */
  lemma RevokeStatusMonotone(certs: seq<Certificate>, certId: string)
    ensures forall i :: 0 <= i < |certs| ==>
      var s := RevokeAll(certs, certId)[i].status;
      (s == certs[i].status || s == Revoked) && (certs[i].status == Revoked ==> s == Revoked)
  {
  }

  /** Revocation keeps every id in its place, so the list's order is kept. */
  lemma RevokeKeepsIds(certs: seq<Certificate>, certId: string)
    ensures forall i :: 0 <= i < |certs| ==> RevokeAll(certs, certId)[i].id == certs[i].id
  {
  }

  /** `find` on the revoked list finds the revoked version of what it found before. */
  lemma {:induction false} FindAfterRevoke(certs: seq<Certificate>, certId: string, id: string)
    ensures Api.Find(RevokeAll(certs, certId), id)
         == if Api.Find(certs, id).None? then None else Some(RevokeOne(Api.Find(certs, id).value, certId))
    decreases |certs|
  {
    if certs != [] {
      var r := RevokeAll(certs, certId);
      assert r[1..] == RevokeAll(certs[1..], certId);
      FindAfterRevoke(certs[1..], certId, id);
    }
  }

  /**
   * Verifying a revoked id in the revoked list never succeeds, and reports
   * "revoked" when the id exists; verifying any other id gives the same
   * answer as before.
   */
  lemma VerifyAfterRevoke(certs: seq<Certificate>, certId: string, other: string)
    requires other != certId
    ensures !Api.VerifyCertificate(RevokeAll(certs, certId), certId).success
    ensures (exists i :: 0 <= i < |certs| && certs[i].id == certId) ==>
      Api.VerifyCertificate(RevokeAll(certs, certId), certId).message == Api.RevokedMessage
    ensures Api.VerifyCertificate(RevokeAll(certs, certId), other) == Api.VerifyCertificate(certs, other)
  {
    var r := RevokeAll(certs, certId);
    FindAfterRevoke(certs, certId, certId);
    var f := Api.Find(certs, certId);
    if f.Some? {
      assert Api.Find(r, certId) == Some(f.value.(status := Revoked));
    }
    FindAfterRevoke(certs, certId, other);
    var g := Api.Find(certs, other);
    if g.Some? {
      assert Api.Find(r, other) == g;
    }
  }

  /** The revoke button is rendered only for rows whose status is "active". */
  predicate RevokeOffered(cert: Certificate) {
    cert.status == Active
  }

  /**
   * Revoking through the button of row `i`, which is shown only while that
   * row is active, turns exactly that row's status from "active" to
   * "revoked" and changes nothing else in it.
   */
  lemma RevokeOfferedRow(certs: seq<Certificate>, i: nat)
    requires i < |certs| && RevokeOffered(certs[i])
    ensures var r := RevokeAll(certs, certs[i].id);
      && certs[i].status == Active && r[i].status == Revoked
      && r[i] == certs[i].(status := Revoked)
  {
  }

  /** The institution every issued preview is stamped with. */
  const IssuingInstitution: string := "Tech University"

  /**
   * The record `handleIssueCertificate` shows as a preview after a
   * successful issue: the form fields, the issued id and hash, status
   * "active", the fixed institution and `today` (the date part of the clock).
   */
  function PreviewRecord(data: Api.IssueForm, result: Api.IssueResponse, today: string): (c: Certificate)
    ensures c.status == Active && c.institution == IssuingInstitution
    ensures c.id == result.certificateId && c.blockchainHash == result.blockchainHash
    ensures c.studentName == data.studentName && c.course == data.course
    ensures c.grade == data.grade && c.completionDate == data.completionDate
    ensures c.issuedDate == today
  {
    Certificate(result.certificateId, data.studentName, data.course, data.grade,
      data.completionDate, IssuingInstitution, Active, result.blockchainHash, today)
  }

  /** The component's state: `isLoading`, `certificates` and `previewCert`. */
  class Dashboard {
    var isLoading: bool
    var certificates: seq<Certificate>
    var previewCert: Option<Certificate>

    /** Every row's status is "active" or "revoked", as in the seed table. */
    ghost predicate Valid()
      reads this
    {
      forall i :: 0 <= i < |certificates| ==>
        certificates[i].status == Active || certificates[i].status == Revoked
    }

    /** `useState(false)`, `useState(mockCertificates)`, `useState(null)`. */
    constructor ()
      ensures Valid()
      ensures !isLoading && certificates == Api.MockCertificates && previewCert == None
    {
      isLoading := false;
      certificates := Api.MockCertificates;
      previewCert := None;
    }

    /** `handleRevoke(certId)`: replace the list by its revoked map. */
    method HandleRevoke(certId: string)
      requires Valid()
      modifies this
      ensures Valid()
      ensures certificates == RevokeAll(old(certificates), certId)
      ensures isLoading == old(isLoading) && previewCert == old(previewCert)
    {
      certificates := RevokeAll(certificates, certId);
    }

    /** The click on row `i`'s revoke button, which exists only while that row is active. */
    method ClickRevoke(i: nat)
      requires Valid() && i < |certificates| && RevokeOffered(certificates[i])
      modifies this
      ensures Valid()
      ensures certificates == RevokeAll(old(certificates), old(certificates[i].id))
      ensures certificates[i] == old(certificates[i]).(status := Revoked)
      ensures isLoading == old(isLoading) && previewCert == old(previewCert)
    {
      HandleRevoke(certificates[i].id);
    }

    /**
     * `handleIssueCertificate` with the form already read: loading is set and
     * cleared, the API's answer becomes the preview, and the list is left
     * alone. `randomHash` and `today` stand for `Math.random` and the clock.
     */
    method HandleIssueCertificate(data: Api.IssueForm, randomHash: string, today: string)
      requires Valid()
      modifies this
      ensures Valid()
      ensures !isLoading && certificates == old(certificates)
      ensures previewCert == Some(PreviewRecord(data,
        Api.IssueResponse(true, Api.NextCertificateId(|Api.MockCertificates|), randomHash), today))
    {
      isLoading := true;
      var result := Api.IssueCertificate(Api.MockCertificates, data, randomHash);
      if result.success {
        previewCert := Some(PreviewRecord(data, result, today));
      }
      isLoading := false;
    }
  }

  /**
   * The preview after an issue on the seed table: id "CERT-2024-004", status
   * "active", institution "Tech University", and not a row of the list.
   */
  lemma SeedIssuePreview(data: Api.IssueForm, randomHash: string, today: string)
    ensures var c := PreviewRecord(data,
      Api.IssueCertificate(Api.MockCertificates, data, randomHash), today);
      && c.id == "CERT-2024-004" && c.status == Active && c.institution == IssuingInstitution
      && c !in Api.MockCertificates
  {
    Api.IssueOnSeedTable(data, randomHash, data, randomHash);
  }
}
