/**
 * Certificate issue. The certificate is a URL built from the two ids as
 * the body sent them; nothing checks that the volunteer completed the
 * opportunity or that the caller organises it.
 */
module Certificates {
  import opened Wrappers
  import opened Http
  import Text
  import opened Schema

  datatype Certificate = Certificate(id: nat, userId: nat, opportunityId: nat, certificateUrl: string)

  /** The certificate table, in insertion order; ids come from an auto-increment counter. */
  class CertificateTable {
    var rows: seq<Certificate>
    var nextId: nat

    ghost predicate Valid()
      reads this
    {
      1 <= nextId && forall k | 0 <= k < |rows| :: 1 <= rows[k].id < nextId
    }

    constructor ()
      ensures Valid() && rows == [] && nextId == 1
    {
      rows, nextId := [], 1;
    }
  }

  const UrlPrefix := "https://api.example.com/certificates/"

  /** The certificate's address, with each id written as the template literal writes it. */
  function CertificateUrl(userId: Option<Scalar>, opportunityId: Option<Scalar>): (url: string)
    ensures UrlPrefix <= url && |url| >= |UrlPrefix| + 4 && url[|url| - 4..] == ".pdf"
  {
    UrlPrefix + Render(userId) + "-" + Render(opportunityId) + ".pdf"
  }

  /** `<prefix><a>-<b>.pdf` determines `a` and `b` when `a` has no dash. */
  lemma SplitUrl(a: string, b: string, c: string, d: string)
    requires '-' !in a && '-' !in c
    requires UrlPrefix + a + "-" + b + ".pdf" == UrlPrefix + c + "-" + d + ".pdf"
    ensures a == c && b == d
  {
    var x := UrlPrefix + a + "-" + b + ".pdf";
    var y := UrlPrefix + c + "-" + d + ".pdf";
    var xs := a + "-" + b + ".pdf";
    var ys := c + "-" + d + ".pdf";
    assert x[|UrlPrefix|..] == xs;
    assert y[|UrlPrefix|..] == ys;
    assert xs == ys;
    assert xs == a + ['-'] + (b + ".pdf");
    assert ys == c + ['-'] + (d + ".pdf");
    Text.PrefixBeforeAppend(a, '-', b + ".pdf");
    Text.PrefixBeforeAppend(c, '-', d + ".pdf");
    assert xs[|a| + 1..] == b + ".pdf";
    assert ys[|c| + 1..] == d + ".pdf";
    assert (b + ".pdf")[..|b|] == b;
    assert (d + ".pdf")[..|d|] == d;
  }

  /** Different pairs of numeric ids get different certificate URLs. */
  lemma CertificateUrlInjective(u1: nat, o1: nat, u2: nat, o2: nat)
    requires CertificateUrl(Some(Num(u1)), Some(Num(o1))) == CertificateUrl(Some(Num(u2)), Some(Num(o2)))
    ensures u1 == u2 && o1 == o2
  {
    Text.DigitsHaveNoSeparator(Text.NatToString(u1));
    Text.DigitsHaveNoSeparator(Text.NatToString(u2));
    SplitUrl(Text.NatToString(u1), Text.NatToString(o1), Text.NatToString(u2), Text.NatToString(o2));
    Text.NatToStringInjective(u1, u2);
    Text.NatToStringInjective(o1, o2);
  }

  /** An id as the store is asked to link it: the body's value read by
      `parseInt`, when that is the id of an existing row (the foreign key). */
  function LinkedId(ids: set<nat>, v: Option<Scalar>): (r: Option<nat>)
    ensures r.Some? ==> r.value in ids && ParseIntOf(v) == Some(r.value as int)
    ensures r.None? <==> ParseIntOf(v).None? || ParseIntOf(v).value < 0 || ParseIntOf(v).value as nat !in ids
  {
    match ParseIntOf(v)
    case None => None
    case Some(n) => if n >= 0 && n as nat in ids then Some(n as nat) else None
  }

  /** POST /certificates/generate. Whoever calls it, for whatever pair of existing
      user and opportunity, one certificate row is added. */
  method GenerateCertificate(table: CertificateTable, userIds: set<nat>, opportunityIds: set<nat>,
                             userId: Option<Scalar>, opportunityId: Option<Scalar>)
    returns (r: Reply<string>)
    requires table.Valid()
    modifies table
    ensures table.Valid()
    ensures LinkedId(userIds, userId).None? || LinkedId(opportunityIds, opportunityId).None? ==>
      r == Fail(500, "Failed to generate certificate") && unchanged(table)
    ensures LinkedId(userIds, userId).Some? && LinkedId(opportunityIds, opportunityId).Some? ==>
      var c := Certificate(old(table.nextId), LinkedId(userIds, userId).value,
                           LinkedId(opportunityIds, opportunityId).value, CertificateUrl(userId, opportunityId));
      && table.rows == old(table.rows) + [c]
      && table.nextId == old(table.nextId) + 1
      && r == Ok(201, "Certificate generated successfully", c.certificateUrl)
  {
    var url := CertificateUrl(userId, opportunityId);
    var u := LinkedId(userIds, userId);
    var o := LinkedId(opportunityIds, opportunityId);
    if u.None? || o.None? {
      return Fail(500, "Failed to generate certificate");
    }
    var c := Certificate(table.nextId, u.value, o.value, url);
    table.rows := table.rows + [c];
    table.nextId := table.nextId + 1;
    r := Ok(201, "Certificate generated successfully", url);
  }
}
