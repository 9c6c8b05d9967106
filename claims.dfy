/**
 * The caller's identity as ASP.NET presents it: a ClaimsPrincipal whose claims
 * are searched by type with ClaimsPrincipal.FindFirst.
 */
module Claims {
  import opened Wrappers

  datatype Claim = Claim(claimType: string, value: string)

  /** A ClaimsPrincipal: the claims of all its identities, identity by identity, in order. */
  datatype Principal = Principal(claims: seq<Claim>)

  /** The JWT subject claim type. */
  const Subject: string := "sub"

  /** ClaimTypes.NameIdentifier. */
  const NameIdentifier: string := "http://schemas.xmlsoap.org/ws/2005/05/identity/claims/nameidentifier"

  function ToUpperAscii(c: char): char
  {
    if 'a' <= c <= 'z' then (c as int - 32) as char else c
  }

  /** String comparison with StringComparison.OrdinalIgnoreCase, for ASCII letters. */
  predicate EqualsIgnoreCase(a: string, b: string)
  {
    |a| == |b| && forall i :: 0 <= i < |a| ==> ToUpperAscii(a[i]) == ToUpperAscii(b[i])
  }

  predicate HasType(c: Claim, claimType: string)
  {
    EqualsIgnoreCase(c.claimType, claimType)
  }

  /** The position of the first claim of the given type, if there is one. */
  function FirstIndexOfType(claims: seq<Claim>, claimType: string): (r: Option<nat>)
    ensures r.Some? ==> r.value < |claims| && HasType(claims[r.value], claimType)
    ensures r.Some? ==> forall j :: 0 <= j < r.value ==> !HasType(claims[j], claimType)
    ensures r.None? <==> forall j :: 0 <= j < |claims| ==> !HasType(claims[j], claimType)
  {
    if claims == [] then None
    else if HasType(claims[0], claimType) then Some(0)
    else match FirstIndexOfType(claims[1..], claimType)
      case None => None
      case Some(k) => Some(k + 1)
  }

  /** ClaimsPrincipal.FindFirst: the first claim of the given type, or null. */
  function FindFirst(user: Principal, claimType: string): (r: Option<Claim>)
    ensures r.Some? ==> r.value in user.claims && HasType(r.value, claimType)
    ensures r.None? <==> forall c :: c in user.claims ==> !HasType(c, claimType)
  {
    match FirstIndexOfType(user.claims, claimType)
    case None => None
    case Some(i) => Some(user.claims[i])
  }

  /** A claim that is the first of its type is the one FindFirst returns. */
  lemma FindFirstAt(user: Principal, claimType: string, i: nat)
    requires i < |user.claims| && HasType(user.claims[i], claimType)
    requires forall j :: 0 <= j < i ==> !HasType(user.claims[j], claimType)
    ensures FindFirst(user, claimType) == Some(user.claims[i])
  {
  }
}
