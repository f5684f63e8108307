/**
 * Providers, their key pools and the edits of a commit
 * (src-tauri/src/core/config_commit.rs, lines 724-829 and 1095-1245).
 */
module Credentials {
  import opened Wrappers
  import A = Accounts

  const PLACEHOLDER := "__keyring__"

  type Pool = seq<string>
  type Keyring = map<string, Pool>

  datatype Model = Model(id: string, settings: string)

  /** `settings` stands for the name, the protocol and the address; `headersOk` for `validate_request_headers`. */
  datatype Provider = Provider(
    id: string, settings: string, headersOk: bool, models: seq<Model>,
    keys: seq<string>, ref: Option<string>, count: Option<nat>)

  datatype Edit = Keep | Append(newKeys: seq<string>) | Replace(newKeys: seq<string>) | Clear

  datatype Code =
    InvalidOperation | Busy | ChangedExternally | Unreadable | JournalUnreadable | Uncertain | HistoryFull | Expired
    | Conflict | InvalidRole | ModelNotFound | InvalidConfiguration | InvalidProvider | InvalidHeaders | InvalidModel
    | InvalidIntent | InvalidReference | IntentRequired | InvalidCredential | CredentialConflict | ReadFailed
    | UnsafeStorage | QueueFull | JournalWriteFailed | KeyringFailed | ConfigWriteFailed

  // ---------- lists of keys ----------

  predicate Unique(keys: seq<string>) {
    forall i, j | 0 <= i < j < |keys| :: keys[i] != keys[j]
  }

  /** `extend_unique`. */
  function Extended(keys: seq<string>, additions: seq<string>): seq<string>
    decreases |additions|
  {
    if additions == [] then keys
    else Extended(if additions[0] in keys then keys else keys + [additions[0]], additions[1..])
  }

  /** Extending keeps what was there, in front and in order, and adds exactly the missing keys, each once. */
  lemma {:induction false} ExtendedIsUnion(keys: seq<string>, additions: seq<string>)
    ensures keys <= Extended(keys, additions)
    ensures forall k :: k in Extended(keys, additions) <==> k in keys || k in additions
    ensures Unique(keys) ==> Unique(Extended(keys, additions))
    decreases |additions|
  {
    if additions != [] {
      var next := if additions[0] in keys then keys else keys + [additions[0]];
      ExtendedIsUnion(next, additions[1..]);
      assert additions == [additions[0]] + additions[1..];
    }
  }

  lemma {:induction false} ExtendedByUnique(keys: seq<string>, additions: seq<string>)
    requires Unique(additions) && forall k | k in additions :: k !in keys
    ensures Extended(keys, additions) == keys + additions
    decreases |additions|
  {
    if additions != [] {
      var next := keys + [additions[0]];
      assert additions[0] in additions;
      forall k | k in additions[1..] ensures k !in next {
        var i :| 0 <= i < |additions[1..]| && additions[1..][i] == k;
        assert additions[i + 1] == k;
        assert k in additions && additions[0] != additions[i + 1];
      }
      assert Unique(additions[1..]);
      ExtendedByUnique(next, additions[1..]);
      assert keys + additions == next + additions[1..];
    }
  }

  method ExtendUnique(keys: seq<string>, additions: seq<string>) returns (r: seq<string>)
    ensures r == Extended(keys, additions)
  {
    r := keys;
    for i := 0 to |additions|
      invariant Extended(r, additions[i..]) == Extended(keys, additions)
    {
      assert additions[i..][0] == additions[i] && additions[i..][1..] == additions[i + 1..];
      if additions[i] !in r {
        r := r + [additions[i]];
      }
    }
  }

  // ---------- new keys ----------

  predicate Space(c: char) {
    c in " \t\n\r\U{0B}\U{0C}"
  }

  function TrimStart(s: string): string {
    if s != "" && Space(s[0]) then TrimStart(s[1..]) else s
  }

  function TrimEnd(s: string): string {
    if s != "" && Space(s[|s| - 1]) then TrimEnd(s[..|s| - 1]) else s
  }

  function Trim(s: string): string {
    TrimEnd(TrimStart(s))
  }

  predicate Masked(key: string) {
    |key| >= 3 && key[..3] == "***"
  }

  /** Not a key: a marker of saved state, or more than one line. */
  predicate Refused(key: string) {
    '\n' in key || '\r' in key || key == PLACEHOLDER || Masked(key)
  }

  /** The trimmed keys that are not empty. */
  function Entered(keys: seq<string>): seq<string> {
    if keys == [] then []
    else if Trim(keys[0]) == "" then Entered(keys[1..]) else [Trim(keys[0])] + Entered(keys[1..])
  }

  /** `normalize_new_keys`. */
  function Normalized(keys: seq<string>): Option<seq<string>> {
    if exists i | 0 <= i < |keys| :: Refused(Trim(keys[i])) then None else Some(Extended([], Entered(keys)))
  }

  lemma {:induction false} EnteredKeys(keys: seq<string>, k: string)
    ensures k in Entered(keys) <==> k != "" && exists i | 0 <= i < |keys| :: Trim(keys[i]) == k
  {
    if keys != [] {
      EnteredKeys(keys[1..], k);
      hide Trim;
      if k in Entered(keys[1..]) {
        var i :| 0 <= i < |keys[1..]| && Trim(keys[1..][i]) == k;
        assert keys[i + 1] == keys[1..][i];
      }
      forall i | 0 <= i < |keys| && Trim(keys[i]) == k && k != "" ensures k in Entered(keys) {
        if i > 0 {
          assert keys[1..][i - 1] == keys[i];
        }
      }
    }
  }

  /** What a commit may store: each entered key once, in the order of first entry, none empty and none a marker. */
  lemma {:induction false} NormalizedKeys(keys: seq<string>)
    ensures Normalized(keys).Some? <==> forall i | 0 <= i < |keys| :: !Refused(Trim(keys[i]))
    ensures Normalized(keys).Some? ==>
      var r := Normalized(keys).value;
      && Unique(r) && (forall k | k in r :: k != "" && !Refused(k))
      && (forall k :: k in r <==> k != "" && exists i | 0 <= i < |keys| :: Trim(keys[i]) == k)
  {
    ExtendedIsUnion([], Entered(keys));
    hide Trim, Refused, Extended;
    forall k ensures k in Entered(keys) <==> k != "" && exists i | 0 <= i < |keys| :: Trim(keys[i]) == k {
      EnteredKeys(keys, k);
    }
    hide Entered;
  }

  method NormalizeNewKeys(keys: seq<string>) returns (r: Option<seq<string>>)
    ensures r == Normalized(keys)
  {
    var out: seq<string> := [];
    hide Refused, Trim;
    for i := 0 to |keys|
      invariant forall j | 0 <= j < i :: !Refused(Trim(keys[j]))
      invariant Extended(out, Entered(keys[i..])) == Extended([], Entered(keys))
    {
      assert keys[i..][0] == keys[i] && keys[i..][1..] == keys[i + 1..];
      var key := Trim(keys[i]);
      if Refused(key) {
        return None;
      }
      if key != "" {
        assert Entered(keys[i..])[0] == key && Entered(keys[i..])[1..] == Entered(keys[i + 1..]);
        if key !in out {
          out := out + [key];
        }
      }
    }
    return Some(out);
  }

  // ---------- the pool of a provider ----------

  /** The keyring account a provider refers to. */
  function AccountOf(p: Provider): string {
    if p.ref.Some? then p.ref.value else p.id
  }

  function ProviderAccount(p: Provider): Option<string> {
    if PLACEHOLDER in p.keys then Some(AccountOf(p)) else None
  }

  predicate Plain(key: string) {
    key != "" && key != PLACEHOLDER
  }

  function PlainKeys(keys: seq<string>): seq<string> {
    if keys == [] then [] else (if Plain(keys[0]) then [keys[0]] else []) + PlainKeys(keys[1..])
  }

  predicate HasPlain(keys: seq<string>) {
    exists k | k in keys :: Plain(k)
  }

  /** `resolve_provider_with`; reading an account fails when it is missing or in `bad`. */
  function Resolved(ring: Keyring, bad: set<string>, p: Provider): Option<Pool> {
    if p.keys == [] then Some([])
    else
      var plain := Extended([], PlainKeys(p.keys));
      if PLACEHOLDER !in p.keys then Some(plain)
      else if AccountOf(p) in bad || AccountOf(p) !in ring then None
      else Some(Extended(plain, ring[AccountOf(p)]))
  }

  lemma {:induction false} ResolvedUnique(ring: Keyring, bad: set<string>, p: Provider)
    requires Resolved(ring, bad, p).Some?
    ensures Unique(Resolved(ring, bad, p).value) && Resolved(ring, {}, p) == Resolved(ring, bad, p)
  {
    var plain := Extended([], PlainKeys(p.keys));
    ExtendedIsUnion([], PlainKeys(p.keys));
    if p.keys != [] && PLACEHOLDER in p.keys {
      ExtendedIsUnion(plain, ring[AccountOf(p)]);
    }
  }

  // ---------- the old string editor ----------

  function Mask(key: string): string {
    if key == "" then "" else "***" + key[if |key| <= 4 then 0 else |key| - 4..]
  }

  function MaskAll(keys: seq<string>): seq<string> {
    seq(|keys|, i requires 0 <= i < |keys| => if keys[i] == PLACEHOLDER then keys[i] else Mask(keys[i]))
  }

  /** The saved keys a mask may stand for. */
  function MaskedBy(keys: seq<string>, mask: string): seq<string> {
    if keys == [] then []
    else (if Mask(keys[0]) == mask && !Masked(keys[0]) then [keys[0]] else []) + MaskedBy(keys[1..], mask)
  }

  function LegacyFrom(
    oldKeys: seq<string>, incoming: seq<string>, newKeys: seq<string>, preserve: bool
  ): Result<Edit, Code>
    decreases |incoming|
  {
    if incoming == [] then
      Ok(if preserve then (if newKeys == [] then Keep else Append(newKeys))
         else if newKeys == [] then Clear else Replace(newKeys))
    else
      var key, rest := Trim(incoming[0]), incoming[1..];
      if key == "" then LegacyFrom(oldKeys, rest, newKeys, preserve)
      else if key == PLACEHOLDER then
        if PLACEHOLDER in oldKeys then LegacyFrom(oldKeys, rest, newKeys, true) else Err(CredentialConflict)
      else if Masked(key) then
        var matches := MaskedBy(oldKeys, key);
        if |matches| == 1 then LegacyFrom(oldKeys, rest, newKeys + matches, preserve) else Err(CredentialConflict)
      else LegacyFrom(oldKeys, rest, newKeys + [key], preserve)
  }

  /** `legacy_credential_edit`; no old provider means no old keys. */
  function LegacyEdit(oldKeys: seq<string>, incoming: seq<string>): Result<Edit, Code> {
    LegacyFrom(oldKeys, incoming, [], false)
  }

  // ---------- one provider of a commit ----------

  /** The operation on the pool: the explicit one, the old string editor's, or none. */
  function EditFor(before: Option<Provider>, p: Provider, explicit: Option<Edit>, pageInput: bool): Result<Edit, Code> {
    if explicit.Some? then Ok(explicit.value)
    else if pageInput && !(before.Some? && (p.keys == before.value.keys || p.keys == MaskAll(before.value.keys))) then
      LegacyEdit(if before.Some? then before.value.keys else [], p.keys)
    else Ok(Keep)
  }

  function Carried(before: Option<Provider>, p: Provider): Provider {
    if before.Some? then p.(keys := before.value.keys, ref := before.value.ref, count := before.value.count) else p
  }

  function OrFailed(pool: Option<Pool>): Result<Option<Pool>, Code> {
    match pool
    case Some(keys) => Ok(Some(keys))
    case None => Err(ReadFailed)
  }

  /** The provider with what it keeps, and the pool that has to be stored anew, if any. */
  function PoolFor(before: Option<Provider>, p: Provider, edit: Edit, ring: Keyring, bad: set<string>)
    : (Provider, Result<Option<Pool>, Code>)
  {
    match edit
    case Keep =>
      if before.Some? then
        (Carried(before, p), if HasPlain(before.value.keys) then OrFailed(Resolved(ring, bad, before.value))
          else Ok(None))
      else if p.keys != [] then (p, Err(IntentRequired))
      else (p.(keys := [], ref := None, count := Some(0)), Ok(None))
    case Append(newKeys) =>
      (match Normalized(newKeys)
       case None => (p, Err(InvalidCredential))
       case Some(added) =>
         if added == [] then
           var p' := Carried(before, p);
           (p', if HasPlain(p'.keys) then OrFailed(Resolved(ring, bad, p')) else Ok(None))
         else
           var pool := if before.Some? then Resolved(ring, bad, before.value) else Some([]);
           (p, if pool.Some? then Ok(Some(Extended(pool.value, added))) else Err(ReadFailed)))
    case Replace(newKeys) =>
      (p, match Normalized(newKeys)
          case None => Err(InvalidCredential)
          case Some(pool) => Ok(Some(pool)))
    case Clear => (p, Ok(Some([])))
  }

  /** A pool on its way to a new account. */
  datatype Prepared = Prepared(account: string, pool: Pool)

  function Placed(p: Provider, pool: Option<Pool>, uuid: string): (Provider, Option<Prepared>) {
    var (p', prepared) :=
      if pool.None? then (p, None)
      else if pool.value == [] then (p.(keys := [], ref := None, count := Some(0)), None)
      else
        var account := A.Generated(p.id, uuid);
        (p.(keys := [PLACEHOLDER], ref := Some(account), count := Some(|pool.value|)),
          Some(Prepared(account, pool.value)));
    (if p'.keys == [] then p'.(ref := None) else p', prepared)
  }

  /** One round of the provider loop. */
  function ProviderStep(before: Option<Provider>, p: Provider, explicit: Option<Edit>, pageInput: bool, ring: Keyring,
                        bad: set<string>, uuid: string): Result<(Provider, Option<Prepared>), Code>
  {
    if p.ref != (if before.Some? then before.value.ref else None) then Err(InvalidReference)
    else match EditFor(before, p, explicit, pageInput)
      case Err(e) => Err(e)
      case Ok(edit) =>
        var (p', pool) := PoolFor(before, p, edit, ring, bad);
        match pool
        case Err(e) => Err(e)
        case Ok(pool) => Ok(Placed(p', pool, uuid))
  }

  // ---------- what an edit means ----------

  /**
   * The pool a provider is to have: the saved one, the saved one with new keys behind it, new keys, or none. A
   * provider that is not saved yet and appends nothing takes the keys it was submitted with.
   */
  function Intended(before: Option<Provider>, p: Provider, edit: Edit, ring: Keyring): Option<Pool> {
    var saved := if before.Some? then Resolved(ring, {}, before.value) else Some([]);
    match edit
    case Keep => saved
    case Append(newKeys) =>
      (match Normalized(newKeys)
       case None => None
       case Some(added) =>
         if added == [] && before.None? then Resolved(ring, {}, p)
         else if saved.None? then None
         else Some(Extended(saved.value, added)))
    case Replace(newKeys) => Normalized(newKeys)
    case Clear => Some([])
  }

  lemma {:induction false} SameAccountSamePool(ring: Keyring, ring': Keyring, p: Provider)
    requires var a := AccountOf(p);
      PLACEHOLDER in p.keys ==> (a in ring <==> a in ring') && (a in ring ==> ring[a] == ring'[a])
    ensures Resolved(ring, {}, p) == Resolved(ring', {}, p)
  {
  }

  lemma {:induction false} StoredPoolResolves(ring: Keyring, p: Provider, pool: Pool)
    requires p.keys == [PLACEHOLDER] && AccountOf(p) in ring && ring[AccountOf(p)] == pool && Unique(pool)
    ensures Resolved(ring, {}, p) == Some(pool)
  {
    assert [PLACEHOLDER][1..] == [] && PlainKeys([]) == [] && !Plain(PLACEHOLDER);
    assert PlainKeys(p.keys) == PlainKeys([]) == [];
    assert Extended([], []) == [] && [] + pool == pool;
    ExtendedByUnique([], pool);
  }

  /** A pool made for storage is the intended one, has no duplicates, and replaces what was carried. */
  lemma {:induction false} NewPoolIsIntended(
    before: Option<Provider>, p: Provider, edit: Edit, ring: Keyring, bad: set<string>
  )
    requires before.Some? ==> p.id == before.value.id
    requires var r := PoolFor(before, p, edit, ring, bad).1; r.Ok? && r.value.Some?
    ensures var pool := PoolFor(before, p, edit, ring, bad).1.value.value;
      Unique(pool) && Intended(before, p, edit, ring) == Some(pool)
  {
    if before.Some? && Resolved(ring, bad, before.value).Some? {
      ResolvedUnique(ring, bad, before.value);
    }
    if Resolved(ring, bad, p).Some? {
      ResolvedUnique(ring, bad, p);
    }
    if (edit.Append? || edit.Replace?) && Normalized(edit.newKeys).Some? {
      NormalizedKeys(edit.newKeys);
      var saved := if before.Some? then Resolved(ring, bad, before.value) else Some([]);
      if saved.Some? {
        ExtendedIsUnion(saved.value, Normalized(edit.newKeys).value);
      }
    }
    if edit.Append? && before.Some? {
      CarriedResolves(before.value, p, ring, bad);
    }
    hide Resolved, Normalized, HasPlain, Refused;
  }

  lemma {:induction false} CarriedResolves(before: Provider, p: Provider, ring: Keyring, bad: set<string>)
    requires p.id == before.id
    ensures Resolved(ring, bad, Carried(Some(before), p)) == Resolved(ring, bad, before)
  {
  }

  /** Without a new pool the provider is left with a reference that already resolves to the intended pool. */
  lemma {:induction false} KeptPoolIsIntended(
    before: Option<Provider>, p: Provider, edit: Edit, ring: Keyring, bad: set<string>
  )
    requires before.Some? ==> p.id == before.value.id
    requires var r := PoolFor(before, p, edit, ring, bad).1; r == Ok(None)
    ensures Resolved(ring, {}, PoolFor(before, p, edit, ring, bad).0) == Intended(before, p, edit, ring)
  {
    if before.Some? {
      CarriedResolves(before.value, p, ring, {});
    }
    hide Resolved, HasPlain;
    assert edit.Keep? && before.None? ==> PoolFor(before, p, edit, ring, bad).0.keys == [];
  }

  /**
   * Whatever the edit: once the prepared pool is in the keyring, or if there is none while the accounts in use
   * are as they were, the written provider resolves to the intended pool.
   */
  lemma {:induction false} ProviderResolves(
    before: Option<Provider>, p: Provider, explicit: Option<Edit>, pageInput: bool, ring: Keyring, bad: set<string>,
    uuid: string, ring': Keyring
  )
    requires before.Some? ==> p.id == before.value.id
    requires ProviderStep(before, p, explicit, pageInput, ring, bad, uuid).Ok?
    requires var (p', prepared) := ProviderStep(before, p, explicit, pageInput, ring, bad, uuid).value;
      if prepared.Some? then prepared.value.account in ring' && ring'[prepared.value.account] == prepared.value.pool
      else var a := AccountOf(p'); PLACEHOLDER in p'.keys ==>
        (a in ring <==> a in ring') && (a in ring ==> ring[a] == ring'[a])
    ensures Resolved(ring', {}, ProviderStep(before, p, explicit, pageInput, ring, bad, uuid).value.0)
      == Intended(before, p, EditFor(before, p, explicit, pageInput).value, ring)
  {
    var edit := EditFor(before, p, explicit, pageInput).value;
    var (p1, pool) := PoolFor(before, p, edit, ring, bad);
    var (p', prepared) := Placed(p1, pool.value, uuid);
    if pool.value.Some? {
      NewPoolIsIntended(before, p, edit, ring, bad);
      if prepared.Some? {
        StoredPoolResolves(ring', p', prepared.value.pool);
      }
    } else {
      KeptPoolIsIntended(before, p, edit, ring, bad);
      SameAccountSamePool(ring, ring', p');
      assert p1.keys == [] ==> Resolved(ring, {}, p1) == Resolved(ring, {}, p');
    }
    hide PoolFor, EditFor, Intended;
  }

  /** A submitted reference has to be the saved one; the written one is the saved one, none, or newly generated. */
  lemma {:induction false} ReferencesAreAssigned(
    before: Option<Provider>, p: Provider, explicit: Option<Edit>, pageInput: bool, ring: Keyring, bad: set<string>,
    uuid: string
  )
    requires ProviderStep(before, p, explicit, pageInput, ring, bad, uuid).Ok?
    ensures var (p', prepared) := ProviderStep(before, p, explicit, pageInput, ring, bad, uuid).value;
      && p'.id == p.id && p'.models == p.models && p'.settings == p.settings && p'.headersOk == p.headersOk
      && (if prepared.Some? then p'.ref == Some(A.Generated(p.id, uuid)) && p'.keys == [PLACEHOLDER]
                                 && prepared.value.account == A.Generated(p.id, uuid)
                                 && p'.count == Some(|prepared.value.pool|) && prepared.value.pool != []
          else p'.ref.Some? ==> before.Some? && p'.ref == before.value.ref && p'.count == before.value.count)
  {
    hide EditFor, Normalized, Resolved, HasPlain, Extended, A.Generated;
  }

  /** A provider that needs no new pool uses the saved account, or the one its own id names. */
  lemma {:induction false} KeptReference(before: Option<Provider>, p: Provider, explicit: Option<Edit>, pageInput: bool,
                                         ring: Keyring, bad: set<string>, uuid: string)
    requires ProviderStep(before, p, explicit, pageInput, ring, bad, uuid).Ok?
    requires ProviderStep(before, p, explicit, pageInput, ring, bad, uuid).value.1.None?
    requires (before.Some? ==> before.value.id == p.id)
    ensures var p' := ProviderStep(before, p, explicit, pageInput, ring, bad, uuid).value.0;
      PLACEHOLDER in p'.keys ==>
        (before.Some? && ProviderAccount(before.value) == Some(AccountOf(p'))) || AccountOf(p') == p.id
  {
    hide EditFor, Normalized, Resolved, HasPlain, Extended, A.Generated;
  }
}
