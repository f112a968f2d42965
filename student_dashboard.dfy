/**
 * The student dashboard's selection (src/pages/StudentDashboard.tsx):
 * `mockCertificates.filter(c => c.status === "active").slice(0, 2)`.
 */
module StudentDashboard {
  import opened Certificates
  import Api

  /** `xs` is `ys` with some elements left out, the rest in their original order. */
  ghost predicate IsSubsequence(xs: seq<Certificate>, ys: seq<Certificate>)
    decreases |ys|
  {
    if xs == [] then true
    else if ys == [] then false
    else if xs[0] == ys[0] then IsSubsequence(xs[1..], ys[1..])
    else IsSubsequence(xs, ys[1..])
  }

  /** `certs.filter(c => c.status === "active")`. */
  function FilterActive(certs: seq<Certificate>): (r: seq<Certificate>)
    ensures |r| <= |certs|
    ensures forall i :: 0 <= i < |r| ==> r[i].status == Active
    ensures forall c :: c in r <==> c in certs && c.status == Active
    ensures forall c :: multiset(r)[c] == if c.status == Active then multiset(certs)[c] else 0
  {
    if certs == [] then []
    else
      assert certs == [certs[0]] + certs[1..];
      if certs[0].status == Active then [certs[0]] + FilterActive(certs[1..])
      else FilterActive(certs[1..])
  }

  /** `s.slice(0, n)`: the first `n` elements, or all of them if there are fewer. */
  function Slice(s: seq<Certificate>, n: nat): (r: seq<Certificate>)
    ensures |r| == if |s| < n then |s| else n
    ensures r == s[..|r|]
  {
    if |s| < n then s else s[..n]
  }

  /** The certificates the student view shows. */
  function StudentCerts(certs: seq<Certificate>): (r: seq<Certificate>)
    ensures |r| <= 2
    ensures forall i :: 0 <= i < |r| ==> r[i].status == Active
    ensures |r| <= |FilterActive(certs)| && r == FilterActive(certs)[..|r|]
    ensures |r| < 2 ==> r == FilterActive(certs)
  {
    Slice(FilterActive(certs), 2)
  }

  /** The filter keeps the active rows in their original order. */
  lemma {:induction false} FilterActiveIsSubsequence(certs: seq<Certificate>)
    ensures IsSubsequence(FilterActive(certs), certs)
    decreases |certs|
  {
    if certs != [] {
      FilterActiveIsSubsequence(certs[1..]);
      var f := FilterActive(certs[1..]);
      if certs[0].status == Active {
        assert ([certs[0]] + f)[1..] == f;
      } else if f != [] {
        assert f[0] in certs[1..];
      }
    }
  }

  /** A prefix of a subsequence is a subsequence. */
  lemma {:induction false} PrefixIsSubsequence(xs: seq<Certificate>, ys: seq<Certificate>, k: nat)
    requires k <= |xs| && IsSubsequence(xs, ys)
    ensures IsSubsequence(xs[..k], ys)
    decreases |ys|
  {
    if k > 0 && ys != [] {
      if xs[0] == ys[0] {
        PrefixIsSubsequence(xs[1..], ys[1..], k - 1);
        assert xs[..k][1..] == xs[1..][..k - 1];
      } else {
        PrefixIsSubsequence(xs, ys[1..], k);
      }
    }
  }

  /** The selection is an order-preserving subsequence of the table. */
  lemma StudentCertsIsSubsequence(certs: seq<Certificate>)
    ensures IsSubsequence(StudentCerts(certs), certs)
  {
    var f := FilterActive(certs);
    FilterActiveIsSubsequence(certs);
    PrefixIsSubsequence(f, certs, |StudentCerts(certs)|);
  }

  /** Two active rows `i < j` put at least two records through the filter. */
  lemma {:induction false} FilterActiveAtLeastTwo(certs: seq<Certificate>, i: nat, j: nat)
    requires i < j < |certs| && certs[i].status == Active && certs[j].status == Active
    ensures |FilterActive(certs)| >= 2
    decreases |certs|
  {
    if i > 0 {
      FilterActiveAtLeastTwo(certs[1..], i - 1, j - 1);
    } else {
      assert certs[j] in certs[1..];
    }
  }

  /** With at least two active rows, exactly two are shown: the first two active ones. */
  lemma StudentCertsExactlyTwo(certs: seq<Certificate>, i: nat, j: nat)
    requires i < j < |certs| && certs[i].status == Active && certs[j].status == Active
    ensures |StudentCerts(certs)| == 2
    ensures StudentCerts(certs) == FilterActive(certs)[..2]
  {
    FilterActiveAtLeastTwo(certs, i, j);
  }

  /** Two active rows followed by an inactive one: the view is the first two. */
  lemma StudentCertsOfThree(a: Certificate, b: Certificate, c: Certificate)
    requires a.status == Active && b.status == Active && c.status != Active
    ensures StudentCerts([a, b, c]) == [a, b] && c !in StudentCerts([a, b, c])
  {
    var s := [a, b, c];
    assert s[1..] == [b, c] && s[1..][1..] == [c] && [c][1..] == [];
    assert FilterActive(s) == [a, b];
  }

  /** On the seed table the view shows CERT-2024-001 and CERT-2024-002, not the revoked CERT-2024-003. */
  lemma SeedStudentView()
    ensures StudentCerts(Api.MockCertificates) == [Api.MockCertificates[0], Api.MockCertificates[1]]
    ensures Api.MockCertificates[2] !in StudentCerts(Api.MockCertificates)
  {
    var certs := Api.MockCertificates;
    Api.SeedTableShape();
    assert certs[2].status != Active by { assert certs[2].status[0] != Active[0]; }
    assert certs == [certs[0], certs[1], certs[2]];
    StudentCertsOfThree(certs[0], certs[1], certs[2]);
  }
}
