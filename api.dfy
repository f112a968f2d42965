/**
 * The mock certificate API (src/lib/api.ts): the seed table, the lookup
 * that classifies a certificate id as not found, revoked or valid, the
 * listing, and the id an issue would receive.
 *
 * The app's code reads the module-level `mockCertificates` array and never
 * writes it; here the table is an explicit parameter `certs`, and the
 * app's calls are the instances `certs == MockCertificates`.
 */
module Api {
  import opened Wrappers
  import opened Certificates
  import opened JsString

  const MockCertificates: seq<Certificate> := [
    Certificate("CERT-2024-001", "Alice Johnson", "Bachelor of Computer Science",
      "First Class Honours", "2024-05-15", "Tech University", "active",
      "0x7a8f9e2d1c4b6a5f8e3d2c1b9a8f7e6d5c4b3a2f", "2024-05-20"),
    Certificate("CERT-2024-002", "Bob Smith", "Master of Data Science",
      "Distinction", "2024-06-10", "Tech University", "active",
      "0x9b8c7d6e5f4a3b2c1d0e9f8a7b6c5d4e3f2a1b0c", "2024-06-15"),
    Certificate("CERT-2024-003", "Carol Davis", "Diploma in Web Development",
      "Pass with Merit", "2024-04-20", "Tech University", "revoked",
      "0x1a2b3c4d5e6f7a8b9c0d1e2f3a4b5c6d7e8f9a0b", "2024-04-25")
  ]

  const NotFoundMessage: string := "Certificate not found"
  const RevokedMessage: string := "Certificate has been revoked"
  const ValidMessage: string := "Certificate is valid"

  /** The object `verifyCertificate` resolves to; `data` is absent when not found. */
  datatype VerifyResponse = VerifyResponse(success: bool, message: string, data: Option<Certificate>)

  /** `certs.find(c => c.id === id)`: the first row with that id, if any. */
  function Find(certs: seq<Certificate>, id: string): (r: Option<Certificate>)
    ensures r.None? <==> forall i :: 0 <= i < |certs| ==> certs[i].id != id
    ensures r.Some? ==> r.value in certs && r.value.id == id
  {
    if certs == [] then None
    else if certs[0].id == id then Some(certs[0])
    else Find(certs[1..], id)
  }

  /** `find` returns the first row in list order whose id matches. */
  lemma {:induction false} FindFirst(certs: seq<Certificate>, id: string, i: int)
    requires FirstMatch(certs, id, i)
    ensures Find(certs, id) == Some(certs[i])
    decreases i
  {
    if i > 0 {
      assert FirstMatch(certs[1..], id, i - 1);
      FindFirst(certs[1..], id, i - 1);
    }
  }

  /** `api.verifyCertificate(certificateId)` against the table `certs`. */
  function VerifyCertificate(certs: seq<Certificate>, certificateId: string): (r: VerifyResponse)
    ensures r.data.None? <==> forall i :: 0 <= i < |certs| ==> certs[i].id != certificateId
    ensures r.data.Some? ==> r.data.value in certs && r.data.value.id == certificateId
    ensures r.success <==> r.data.Some? && r.data.value.status != Revoked
    ensures r.message == if r.data.None? then NotFoundMessage
                         else if r.success then ValidMessage
                         else RevokedMessage
  {
    var cert := Find(certs, certificateId);
    if cert.None? then VerifyResponse(false, NotFoundMessage, None)
    else if cert.value.status == Revoked then VerifyResponse(false, RevokedMessage, cert)
    else VerifyResponse(true, ValidMessage, cert)
  }

  /** No row has the id: not found, no data. */
  lemma VerifyNotFound(certs: seq<Certificate>, certificateId: string)
    requires forall i :: 0 <= i < |certs| ==> certs[i].id != certificateId
    ensures VerifyCertificate(certs, certificateId) == VerifyResponse(false, NotFoundMessage, None)
  {
  }

  /** The first row with the id is revoked: failure, with that row attached. */
  lemma VerifyRevoked(certs: seq<Certificate>, certificateId: string, i: int)
    requires FirstMatch(certs, certificateId, i) && certs[i].status == Revoked
    ensures VerifyCertificate(certs, certificateId)
         == VerifyResponse(false, RevokedMessage, Some(certs[i]))
  {
    FindFirst(certs, certificateId, i);
  }

  /** The first row with the id has any status but "revoked": valid, with that row attached. */
  lemma VerifyValid(certs: seq<Certificate>, certificateId: string, i: int)
    requires FirstMatch(certs, certificateId, i) && certs[i].status != Revoked
    ensures VerifyCertificate(certs, certificateId)
         == VerifyResponse(true, ValidMessage, Some(certs[i]))
  {
    FindFirst(certs, certificateId, i);
  }

  /**
   * With unique ids (as in the seed table) success is exactly "some row has
   * the id and is not revoked", and the data returned is that row.
   */
  lemma VerifySuccessUniqueIds(certs: seq<Certificate>, certificateId: string)
    requires UniqueIds(certs)
    ensures VerifyCertificate(certs, certificateId).success
        <==> exists i :: 0 <= i < |certs| && certs[i].id == certificateId && certs[i].status != Revoked
  {
    var r := VerifyCertificate(certs, certificateId);
    if exists i :: 0 <= i < |certs| && certs[i].id == certificateId {
      var i :| 0 <= i < |certs| && certs[i].id == certificateId;
      assert FirstMatch(certs, certificateId, i);
      FindFirst(certs, certificateId, i);
      assert r.data == Some(certs[i]);
    }
  }

  /**
   * The seed table: its ids are unique, the first two rows are active and
   * the third is revoked.
   */
  lemma SeedTableShape()
    ensures UniqueIds(MockCertificates)
    ensures MockCertificates[0].status == Active && MockCertificates[1].status == Active
    ensures MockCertificates[2].status == Revoked
  {
    var certs := MockCertificates;
    assert certs[0].id[12] == '1' && certs[1].id[12] == '2' && certs[2].id[12] == '3';
  }

  /** `api.getCertificates()`: the seed table itself. */
  function GetCertificates(): (certs: seq<Certificate>)
    ensures certs == MockCertificates
  {
    MockCertificates
  }

  /** Verifying any listed id returns that very row. */
  lemma GetCertificatesVerify()
    ensures var certs := GetCertificates();
      forall i :: 0 <= i < |certs| ==> VerifyCertificate(certs, certs[i].id).data == Some(certs[i])
  {
    var certs := GetCertificates();
    SeedTableShape();
    forall i | 0 <= i < |certs|
      ensures VerifyCertificate(certs, certs[i].id).data == Some(certs[i])
    {
      assert FirstMatch(certs, certs[i].id, i);
      FindFirst(certs, certs[i].id, i);
    }
  }

  const CertificateIdPrefix: string := "CERT-2024-"

  /**
   * The id `issueCertificate` hands out for a table of `count` rows:
   * `CERT-2024-${String(count + 1).padStart(3, '0')}`.
   */
  function NextCertificateId(count: nat): (id: string)
    ensures |id| >= |CertificateIdPrefix| + 3 && id[..|CertificateIdPrefix|] == CertificateIdPrefix
    ensures AllDigits(id[|CertificateIdPrefix|..])
  {
    CertificateIdPrefix + PadStart(NatToString(count + 1), 3, '0')
  }

  /**
   * The sequence number of a well-formed id: the digits after the
   * "CERT-2024-" prefix, read as a decimal number.
   */
  function CertificateNumber(id: string): (r: Option<nat>)
    ensures r.Some? ==> |id| > |CertificateIdPrefix| && id[..|CertificateIdPrefix|] == CertificateIdPrefix
  {
    var n := |CertificateIdPrefix|;
    if |id| > n && id[..n] == CertificateIdPrefix && AllDigits(id[n..])
    then Some(ParseDigits(id[n..]))
    else None
  }

  /** An issued id is well formed and carries the sequence number `count + 1`. */
  lemma NextCertificateIdNumber(count: nat)
    ensures CertificateNumber(NextCertificateId(count)) == Some(count + 1)
  {
    var digits := NatToString(count + 1);
    var id := NextCertificateId(count);
    var n := |CertificateIdPrefix|;
    ParseNatToString(count + 1);
    ParsePadStart(digits, 3);
    assert id[..n] == CertificateIdPrefix;
    assert id[n..] == PadStart(digits, 3, '0');
  }

  /** Different table sizes give different ids, and equal sizes the same one. */
  lemma NextCertificateIdInjective(a: nat, b: nat)
    ensures NextCertificateId(a) == NextCertificateId(b) <==> a == b
  {
    NextCertificateIdNumber(a);
    NextCertificateIdNumber(b);
  }

  /** The padded suffix is exactly three digits precisely while `count + 1 <= 999`. */
  lemma NextCertificateIdLength(count: nat)
    ensures |NextCertificateId(count)| == |CertificateIdPrefix| + 3 <==> count < 999
    ensures |NextCertificateId(count)| >= |CertificateIdPrefix| + 3
  {
    NatToStringLength(count + 1);
  }

  /** The fields of the issue form (`FormData` entries in the dashboard). */
  datatype IssueForm = IssueForm(studentName: string, course: string, grade: string, completionDate: string)

  /** The object `issueCertificate` resolves to. */
  datatype IssueResponse = IssueResponse(success: bool, certificateId: string, blockchainHash: string)

  /**
   * `api.issueCertificate(data)` against the table `certs`. The random hex
   * string the app's code builds with `Math.random` is the parameter
   * `randomHash`. The form data is accepted and ignored; nothing is stored.
   */
  function IssueCertificate(certs: seq<Certificate>, data: IssueForm, randomHash: string): (r: IssueResponse)
    ensures r.success
    ensures r.certificateId == NextCertificateId(|certs|)
    ensures CertificateNumber(r.certificateId) == Some(|certs| + 1)
    ensures r.blockchainHash == randomHash
  {
    NextCertificateIdNumber(|certs|);
    IssueResponse(true, NextCertificateId(|certs|), randomHash)
  }

  /**
   * Issuing does not add to the table, so every issue against the seed table
   * returns the same id, "CERT-2024-004", whatever the form says; and that
   * id is none of the seeded ones.
   */
  lemma IssueOnSeedTable(d1: IssueForm, h1: string, d2: IssueForm, h2: string)
    ensures IssueCertificate(MockCertificates, d1, h1).certificateId == "CERT-2024-004"
    ensures IssueCertificate(MockCertificates, d1, h1).certificateId
         == IssueCertificate(MockCertificates, d2, h2).certificateId
    ensures forall i :: 0 <= i < |MockCertificates| ==> MockCertificates[i].id != "CERT-2024-004"
  {
    assert NatToString(4) == "4";
    assert PadStart("4", 3, '0') == "004";
    var issued := "CERT-2024-004";
    assert MockCertificates[0].id[12] != issued[12];
    assert MockCertificates[1].id[12] != issued[12];
    assert MockCertificates[2].id[12] != issued[12];
  }

  /** The seed table: two valid certificates, one revoked, and an unknown id. */
  lemma SeedTableVerification()
    ensures VerifyCertificate(MockCertificates, "CERT-2024-001")
         == VerifyResponse(true, ValidMessage, Some(MockCertificates[0]))
    ensures VerifyCertificate(MockCertificates, "CERT-2024-002")
         == VerifyResponse(true, ValidMessage, Some(MockCertificates[1]))
    ensures VerifyCertificate(MockCertificates, "CERT-2024-003")
         == VerifyResponse(false, RevokedMessage, Some(MockCertificates[2]))
    ensures VerifyCertificate(MockCertificates, "CERT-9999-999")
         == VerifyResponse(false, NotFoundMessage, None)
  {
    var certs := MockCertificates;
    SeedTableShape();
    assert FirstMatch(certs, "CERT-2024-001", 0);
    VerifyValid(certs, "CERT-2024-001", 0);
    assert certs[0].id[12] != certs[1].id[12];
    assert FirstMatch(certs, "CERT-2024-002", 1);
    VerifyValid(certs, "CERT-2024-002", 1);
    assert certs[0].id[12] != certs[2].id[12] && certs[1].id[12] != certs[2].id[12];
    assert FirstMatch(certs, "CERT-2024-003", 2);
    VerifyRevoked(certs, "CERT-2024-003", 2);
    var unknown := "CERT-9999-999";
    assert forall i :: 0 <= i < |certs| ==> certs[i].id[5] != unknown[5];
    VerifyNotFound(certs, unknown);
  }
}
