/**
 * Names of keyring accounts (src-tauri/src/core/config_commit.rs, lines 1170-1182). An account the application
 * generates is a provider id, a marker and a UUID.
 */
module Accounts {
  import opened Wrappers

  const MARKER := ":credential:"

  predicate Hex(c: char) {
    '0' <= c <= '9' || 'a' <= c <= 'f' || 'A' <= c <= 'F'
  }

  /** The form in which the program writes UUIDs. */
  predicate Hyphenated(s: string) {
    |s| == 36 && forall i | 0 <= i < 36 :: if i == 8 || i == 13 || i == 18 || i == 23 then s[i] == '-' else Hex(s[i])
  }

  /** The forms `Uuid::parse_str` accepts. */
  predicate IsUuid(s: string) {
    || Hyphenated(s)
    || (|s| == 32 && forall i | 0 <= i < 32 :: Hex(s[i]))
    || (|s| == 45 && s[..9] == "urn:uuid:" && Hyphenated(s[9..]))
    || (|s| == 38 && s[0] == '{' && s[37] == '}' && Hyphenated(s[1..37]))
  }

  predicate MarkerAt(s: string, i: nat) {
    i + 12 <= |s| && s[i..i + 12] == MARKER
  }

  predicate HasMarker(s: string) {
    exists i | 0 <= i < |s| :: MarkerAt(s, i)
  }

  /** The last place of the marker before `limit`. */
  function LastMarker(s: string, limit: nat): (r: Option<nat>)
    ensures r.Some? ==> r.value < limit && MarkerAt(s, r.value)
  {
    if limit == 0 then None else if MarkerAt(s, limit - 1) then Some(limit - 1) else LastMarker(s, limit - 1)
  }

  /** `rsplit_once`. */
  function SplitAtLastMarker(s: string): Option<(string, string)> {
    match LastMarker(s, |s|)
    case None => None
    case Some(i) => Some((s[..i], s[i + 12..]))
  }

  predicate ValidGenerated(account: string) {
    match SplitAtLastMarker(account)
    case None => false
    case Some((provider, uuid)) => provider != "" && !HasMarker(provider) && IsUuid(uuid)
  }

  /** What `recover` may delete. */
  predicate ValidCleanup(account: string) {
    ValidGenerated(account) || IsUuid(account)
  }

  function Generated(provider: string, uuid: string): string {
    provider + MARKER + uuid
  }

  lemma {:induction false} LastMarkerIs(s: string, limit: nat, at: nat)
    requires at < limit && MarkerAt(s, at) && forall i | at < i < limit :: !MarkerAt(s, i)
    ensures LastMarker(s, limit) == Some(at)
  {
    if at + 1 < limit {
      LastMarkerIs(s, limit - 1, at);
    }
  }

  /** No marker starts inside the tail, although the tail may share a colon with the marker before it. */
  lemma {:induction false} NoLaterMarker(provider: string, uuid: string, i: nat)
    requires Hyphenated(uuid) && |provider| < i
    ensures !MarkerAt(Generated(provider, uuid), i)
  {
    var s := Generated(provider, uuid);
    if i + 12 <= |s| {
      assert s[i..i + 12][0] == s[i] && s[i..i + 12][2] == s[i + 2];
      assert MARKER[0] == ':' && MARKER[2] == 'r';
    }
  }

  /** A generated name splits back into its parts. */
  lemma {:induction false} GeneratedSplits(provider: string, uuid: string)
    requires Hyphenated(uuid)
    ensures SplitAtLastMarker(Generated(provider, uuid)) == Some((provider, uuid))
  {
    var s, n := Generated(provider, uuid), |provider|;
    assert s[n..n + 12] == MARKER && s[..n] == provider && s[n + 12..] == uuid;
    forall i | n < i < |s| ensures !MarkerAt(s, i) {
      NoLaterMarker(provider, uuid, i);
    }
    LastMarkerIs(s, |s|, n);
  }

  /** The accounts of a valid provider are exactly those that may be cleaned up. */
  lemma {:induction false} GeneratedEligible(provider: string, uuid: string)
    requires Hyphenated(uuid)
    ensures ValidGenerated(Generated(provider, uuid)) <==> provider != "" && !HasMarker(provider)
  {
    GeneratedSplits(provider, uuid);
    hide SplitAtLastMarker, HasMarker;
  }

  lemma {:induction false} GeneratedInjective(p: string, u: string, q: string, v: string)
    requires Hyphenated(u) && Hyphenated(v) && Generated(p, u) == Generated(q, v)
    ensures p == q && u == v
  {
    GeneratedSplits(p, u);
    GeneratedSplits(q, v);
  }

  lemma {:induction false} GeneratedHasMarker(provider: string, uuid: string)
    ensures HasMarker(Generated(provider, uuid))
  {
    var s := Generated(provider, uuid);
    assert s[|provider|..|provider| + 12] == MARKER;
    assert MarkerAt(s, |provider|);
  }

  /** The text is split by the literal marker. */
  predicate Joins(account: string, provider: string, uuid: string) {
    account == provider + ":credential:" + uuid
  }

  /** No later marker can start in a tail that is a UUID, in whichever form. */
  lemma {:induction false} NoMarkerInUuid(provider: string, uuid: string, i: nat)
    requires IsUuid(uuid) && |provider| < i
    ensures !MarkerAt(Generated(provider, uuid), i)
  {
    var s := Generated(provider, uuid);
    if i + 12 <= |s| {
      var at := i - |provider| - 12;
      assert s[i..i + 12][0] == s[i] && s[i..i + 12][1] == s[i + 1] && s[i..i + 12][2] == s[i + 2];
      assert MARKER[0] == ':' && MARKER[1] == 'c' && MARKER[2] == 'r';
      assert at >= 0 ==> s[i] == uuid[at] && s[i + 1] == uuid[at + 1] && s[i + 2] == uuid[at + 2];
      assert at == -1 ==> s[i + 1] == uuid[0] && s[i + 2] == uuid[1];
      assert at < -1 ==> s[i] == MARKER[i - |provider|];
      assert |uuid| == 45 ==> uuid[..9] == "urn:uuid:" && forall k | 0 <= k < 36 :: uuid[9..][k] == uuid[k + 9];
      assert |uuid| == 38 ==> forall k | 0 <= k < 36 :: uuid[1..37][k] == uuid[k + 1];
      assert |uuid| == 45 ==> forall k | 0 <= k < 9 :: uuid[k] == "urn:uuid:"[k];
    }
  }

  /**
   * A cleanup may delete an account if and only if its name is a UUID, or a provider id that is not empty and has no
   * marker in it, the marker, and a UUID.
   */
  lemma {:induction false} CleanupIff(account: string)
    ensures ValidCleanup(account) <==>
      IsUuid(account) || exists provider, uuid ::
        Joins(account, provider, uuid) && provider != "" && !HasMarker(provider) && IsUuid(uuid)
  {
    hide HasMarker, IsUuid;
    if SplitAtLastMarker(account).Some? {
      var i := LastMarker(account, |account|).value;
      assert MarkerAt(account, i) && account == account[..i] + account[i..i + 12] + account[i + 12..];
      assert Joins(account, account[..i], account[i + 12..]);
    }
    forall provider, uuid | Joins(account, provider, uuid) && IsUuid(uuid)
      ensures SplitAtLastMarker(account) == Some((provider, uuid))
    {
      UuidSplits(provider, uuid);
      assert account == Generated(provider, uuid);
    }
  }

  lemma {:induction false} UuidSplits(provider: string, uuid: string)
    requires IsUuid(uuid)
    ensures SplitAtLastMarker(Generated(provider, uuid)) == Some((provider, uuid))
  {
    hide IsUuid;
    var s, n := Generated(provider, uuid), |provider|;
    assert s[n..n + 12] == MARKER && s[..n] == provider && s[n + 12..] == uuid;
    forall i | n < i < |s| ensures !MarkerAt(s, i) {
      NoMarkerInUuid(provider, uuid, i);
    }
    LastMarkerIs(s, |s|, n);
  }

  lemma {:induction false} HasMarkerIff(s: string)
    ensures HasMarker(s) <==> exists a, b :: Joins(s, a, b)
  {
    if i :| 0 <= i < |s| && MarkerAt(s, i) {
      assert s == s[..i] + s[i..i + 12] + s[i + 12..];
      assert Joins(s, s[..i], s[i + 12..]);
    }
    forall a, b | Joins(s, a, b) ensures MarkerAt(s, |a|) {
      assert s[|a|..|a| + 12] == MARKER;
    }
  }

  /** A hexadecimal digit, and a dash at the places of the canonical form. */
  predicate UuidChar(s: string, i: nat)
    requires i < |s|
  {
    if i in {8, 13, 18, 23} then s[i] == '-' else s[i] in "0123456789abcdefABCDEF"
  }

  /** The four spellings of a UUID: 32 digits, the canonical form, and that in braces or behind `urn:uuid:`. */
  lemma {:induction false} UuidIff(s: string)
    ensures IsUuid(s) <==>
      || (|s| == 32 && forall i | 0 <= i < 32 :: s[i] in "0123456789abcdefABCDEF")
      || Canonical(s)
      || (|s| == 38 && s[0] == '{' && s[37] == '}' && Canonical(s[1..37]))
      || (|s| == 45 && s[..9] == "urn:uuid:" && Canonical(s[9..]))
  {
    forall c ensures Hex(c) <==> c in "0123456789abcdefABCDEF" {
      HexLetter(c);
    }
    forall t: string ensures Hyphenated(t) <==> Canonical(t) {
      CanonicalIff(t);
    }
    hide Hyphenated, Canonical, Hex;
  }

  predicate Canonical(s: string) {
    |s| == 36 && forall i | 0 <= i < 36 :: UuidChar(s, i)
  }

  lemma {:induction false} CanonicalIff(s: string)
    ensures Hyphenated(s) <==> Canonical(s)
  {
    forall i | 0 <= i < |s| ensures Hex(s[i]) <==> s[i] in "0123456789abcdefABCDEF" {
      HexLetter(s[i]);
    }
    hide Hex;
    if Hyphenated(s) {
      forall i | 0 <= i < 36 ensures UuidChar(s, i) {}
    }
    if Canonical(s) {
      forall i | 0 <= i < 36
        ensures if i == 8 || i == 13 || i == 18 || i == 23 then s[i] == '-' else Hex(s[i])
      {
        assert UuidChar(s, i);
      }
    }
  }

  lemma {:induction false} HexLetter(c: char)
    ensures Hex(c) <==> c in "0123456789abcdefABCDEF"
  {
  }
}
