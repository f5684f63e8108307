/**
 * What the owner of a provider asked for, and that the written provider has it: stated on the submitted keys, the saved
 * ones and the keyring (src-tauri/src/core/config_commit.rs, lines 723-828 and 1102-1140).
 */
module CredentialMeaning {
  import opened Wrappers
  import opened Credentials

  // ---------- texts ----------

  predicate White(c: char) {
    c == ' ' || '\t' <= c <= '\r'
  }

  /** `inner` is `s` without the white space around it. */
  ghost predicate TrimOf(s: string, inner: string) {
    && (exists i, j | 0 <= i <= j <= |s| :: Cuts(s, inner, i, j))
    && (inner != "" ==> !White(inner[0]) && !White(inner[|inner| - 1]))
  }

  ghost predicate Cuts(s: string, inner: string, i: nat, j: nat)
    requires i <= j <= |s|
  {
    s[i..j] == inner && (forall k | 0 <= k < i || j <= k < |s| :: White(s[k]))
  }

  lemma {:induction false} TrimStartCuts(s: string) returns (i: nat)
    ensures i <= |s| && TrimStart(s) == s[i..] && (forall k | 0 <= k < i :: White(s[k]))
    ensures i < |s| ==> !White(s[i])
  {
    if s != "" && Space(s[0]) {
      var j := TrimStartCuts(s[1..]);
      i := j + 1;
      assert s[1..][j..] == s[i..];
      forall k | 0 <= k < i ensures White(s[k]) {
        if k > 0 { assert s[k] == s[1..][k - 1]; }
      }
      assert i < |s| ==> s[i] == s[1..][j];
    } else {
      i := 0;
      assert s[0..] == s;
    }
  }

  lemma {:induction false} TrimEndCuts(s: string) returns (j: nat)
    ensures j <= |s| && TrimEnd(s) == s[..j] && (forall k | j <= k < |s| :: White(s[k]))
    ensures j > 0 ==> !White(s[j - 1])
  {
    if s != "" && Space(s[|s| - 1]) {
      j := TrimEndCuts(s[..|s| - 1]);
      assert s[..|s| - 1][..j] == s[..j];
      forall k | j <= k < |s| ensures White(s[k]) {
        if k < |s| - 1 { assert s[k] == s[..|s| - 1][k]; }
      }
      assert j > 0 ==> s[j - 1] == s[..|s| - 1][j - 1];
    } else {
      j := |s|;
      assert s[..j] == s;
    }
  }

  lemma {:induction false} TrimTrims(s: string)
    ensures TrimOf(s, Trim(s))
  {
    var i := TrimStartCuts(s);
    var t := TrimStart(s);
    var j := TrimEndCuts(t);
    assert Cuts(s, Trim(s), i, i + j) by {
      assert t == s[i..];
      assert |t[..j]| == |s[i..i + j]| && forall k | 0 <= k < j :: t[..j][k] == t[k] == s[i + k] == s[i..i + j][k];
      assert t[..j] == s[i..i + j];
      forall k | i + j <= k < |s| ensures White(s[k]) {
        assert s[k] == t[k - i];
      }
    }
    if Trim(s) != "" {
      assert Trim(s)[0] == s[i] && Trim(s)[j - 1] == t[j - 1];
    }
  }

  /** A mask shows three stars and the last four characters, or all of them when there are no more. */
  lemma {:induction false} MaskShows(key: string)
    ensures key == "" ==> Mask(key) == ""
    ensures 0 < |key| <= 4 ==> Mask(key) == "***" + key
    ensures |key| > 4 ==> Mask(key) == "***" + key[|key| - 4..]
    ensures Masked(key) <==> exists rest :: key == "***" + rest
  {
    if Masked(key) {
      assert key == "***" + key[3..];
    }
  }

  // ---------- typed keys ----------

  /** The key was typed, alone on its line. */
  ghost predicate Typed(newKeys: seq<string>, k: string) {
    k != "" && exists i | 0 <= i < |newKeys| :: Trim(newKeys[i]) == k
  }

  ghost predicate NothingTyped(newKeys: seq<string>) {
    forall i | 0 <= i < |newKeys| :: Trim(newKeys[i]) == ""
  }

  /** The first of two keys was typed before the second one was for the first time. */
  ghost predicate Before(newKeys: seq<string>, a: string, b: string) {
    exists i | 0 <= i < |newKeys| :: Trim(newKeys[i]) == a && forall j | 0 <= j <= i :: Trim(newKeys[j]) != b
  }

  /** The pool holds the old keys in front and behind them, once and as they were typed, those that are new. */
  ghost predicate Grown(saved: seq<string>, newKeys: seq<string>, pool: seq<string>) {
    && saved <= pool && Unique(pool)
    && (forall k :: k in pool <==> k in saved || Typed(newKeys, k))
    && (forall a, b | |saved| <= a < b < |pool| :: Before(newKeys, pool[a], pool[b]))
  }

  /** As for keys that are typed as they are. */
  ghost predicate Earlier(keys: seq<string>, a: string, b: string) {
    exists i | 0 <= i < |keys| :: keys[i] == a && forall j | 0 <= j <= i :: keys[j] != b
  }

  lemma {:induction false} EarlierCons(keys: seq<string>, a: string, b: string)
    requires keys != [] && keys[0] != b && Earlier(keys[1..], a, b)
    ensures Earlier(keys, a, b)
  {
    var i :| 0 <= i < |keys[1..]| && keys[1..][i] == a && forall j | 0 <= j <= i :: keys[1..][j] != b;
    assert keys[i + 1] == a;
    forall j | 0 <= j <= i + 1 ensures keys[j] != b {
      if j > 0 { assert keys[j] == keys[1..][j - 1]; }
    }
  }

  lemma {:induction false} ExtendedInOrder(saved: seq<string>, keys: seq<string>)
    requires Unique(saved)
    ensures saved <= Extended(saved, keys)
    ensures var r := Extended(saved, keys);
      forall a, b | |saved| <= a < b < |r| :: Earlier(keys, r[a], r[b])
    decreases |keys|
  {
    ExtendedIsUnion(saved, keys);
    var r := Extended(saved, keys);
    if keys != [] {
      var next := if keys[0] in saved then saved else saved + [keys[0]];
      ExtendedIsUnion(next, keys[1..]);
      ExtendedInOrder(next, keys[1..]);
      hide Earlier, Extended;
      forall a, b | |saved| <= a < b < |r| ensures Earlier(keys, r[a], r[b]) {
        assert r[b] != keys[0] by {
          if keys[0] in saved {
            var i :| 0 <= i < |saved| && saved[i] == keys[0];
            assert r[i] == keys[0];
          } else {
            assert r[|saved|] == keys[0];
          }
        }
        if a < |next| {
          assert r[a] == keys[0];
          EarlierFirst(keys, r[b]);
        } else {
          EarlierCons(keys, r[a], r[b]);
        }
      }
    }
  }

  lemma {:induction false} EarlierFirst(keys: seq<string>, b: string)
    requires keys != [] && keys[0] != b
    ensures Earlier(keys, keys[0], b)
  {
  }

  lemma {:induction false} EarlierStep(keys: seq<string>, a: string, b: string)
    requires keys != [] && Earlier(keys, a, b)
    ensures keys[0] != b && (keys[0] != a ==> Earlier(keys[1..], a, b))
  {
    var i :| 0 <= i < |keys| && keys[i] == a && forall j | 0 <= j <= i :: keys[j] != b;
    if i > 0 {
      assert keys[1..][i - 1] == a && forall j | 0 <= j <= i - 1 :: keys[1..][j] == keys[j + 1];
    }
  }

  lemma {:induction false} EnteredBefore(newKeys: seq<string>, a: string, b: string)
    requires Earlier(Entered(newKeys), a, b) && b != ""
    ensures Before(newKeys, a, b)
  {
    if newKeys != [] {
      hide Trim, Earlier;
      var first := Trim(newKeys[0]);
      if first != "" {
        assert Entered(newKeys)[0] == first && Entered(newKeys)[1..] == Entered(newKeys[1..]);
        EarlierStep(Entered(newKeys), a, b);
      }
      if first == a && first != "" {
        assert Trim(newKeys[0]) == a;
      } else {
        EnteredBefore(newKeys[1..], a, b);
        BeforeCons(newKeys, a, b);
      }
    }
  }

  lemma {:induction false} BeforeCons(newKeys: seq<string>, a: string, b: string)
    requires newKeys != [] && Trim(newKeys[0]) != b && Before(newKeys[1..], a, b)
    ensures Before(newKeys, a, b)
  {
    hide Trim;
    var rest := newKeys[1..];
    var i :| 0 <= i < |rest| && Trim(rest[i]) == a && forall j | 0 <= j <= i :: Trim(rest[j]) != b;
    assert Trim(newKeys[i + 1]) == a;
    forall j | 0 <= j <= i + 1 ensures Trim(newKeys[j]) != b {
      if j > 0 { assert newKeys[j] == rest[j - 1]; }
    }
  }

  lemma {:induction false} NormalizedGrows(saved: seq<string>, newKeys: seq<string>)
    requires Unique(saved) && Normalized(newKeys).Some?
    ensures Grown(saved, newKeys, Extended(saved, Normalized(newKeys).value))
    ensures Normalized(newKeys).value == [] <==> NothingTyped(newKeys)
  {
    var added := Normalized(newKeys).value;
    NormalizedKeys(newKeys);
    ExtendedIsUnion(saved, added);
    ExtendedInOrder(saved, added);
    ExtendedInOrder([], Entered(newKeys));
    ExtendedIsUnion([], Entered(newKeys));
    var pool := Extended(saved, added);
    hide Trim, Extended, Refused;
    assert NothingTyped(newKeys) <==> added == [] by {
      if !NothingTyped(newKeys) {
        var i :| 0 <= i < |newKeys| && Trim(newKeys[i]) != "";
        assert Trim(newKeys[i]) in added;
      }
      assert added != [] ==> added[0] in added;
    }
    forall a, b | |saved| <= a < b < |pool| ensures Before(newKeys, pool[a], pool[b]) {
      TwiceEarlier(Entered(newKeys), added, pool[a], pool[b]);
      assert pool[b] in pool && pool[b] !in saved by { NotInPrefix(saved, pool, b); }
      assert pool[b] in added;
      EnteredBefore(newKeys, pool[a], pool[b]);
    }
    hide Normalized, Before, Unique;
  }

  lemma {:induction false} NotInPrefix(saved: seq<string>, pool: seq<string>, b: nat)
    requires saved <= pool && Unique(pool) && |saved| <= b < |pool|
    ensures pool[b] !in saved
  {
    forall i | 0 <= i < |saved| ensures saved[i] != pool[b] {
      assert pool[i] == saved[i];
    }
  }

  /** An order of a list that is itself in the order of another. */
  lemma {:induction false} TwiceEarlier(keys: seq<string>, once: seq<string>, a: string, b: string)
    requires Earlier(once, a, b) && Unique(once) && b in once
    requires forall i, j | 0 <= i < j < |once| :: Earlier(keys, once[i], once[j])
    ensures Earlier(keys, a, b)
  {
    var i :| 0 <= i < |once| && once[i] == a && forall j | 0 <= j <= i :: once[j] != b;
    var j :| 0 <= j < |once| && once[j] == b;
    assert i < j;
  }

  // ---------- pools ----------

  /** The pool a saved provider has; one that is not saved has none. */
  function SavedPool(before: Option<Provider>, ring: Keyring): Option<Pool> {
    if before.Some? then Resolved(ring, {}, before.value) else Some([])
  }

  function SavedKeys(before: Option<Provider>): seq<string> {
    if before.Some? then before.value.keys else []
  }

  /**
   * The pool of a provider: its keys that are not the placeholder, each once, and behind them, if the placeholder is
   * among them, those of its account that are not there yet. It fails if and only if the account is needed and missing.
   */
  lemma {:induction false} ResolvedMeans(ring: Keyring, p: Provider)
    ensures var account := if p.ref.Some? then p.ref.value else p.id;
      && (Resolved(ring, {}, p).None? <==> PLACEHOLDER in p.keys && account !in ring)
      && (Resolved(ring, {}, p).Some? ==>
           && Unique(Resolved(ring, {}, p).value)
           && forall k :: k in Resolved(ring, {}, p).value <==>
                (k in p.keys && k != "" && k != PLACEHOLDER) || (PLACEHOLDER in p.keys && k in ring[account]))
  {
    ExtendedIsUnion([], PlainKeys(p.keys));
    forall k ensures k in PlainKeys(p.keys) <==> k in p.keys && k != "" && k != PLACEHOLDER {
      PlainKeysHas(p.keys, k);
    }
    if PLACEHOLDER in p.keys && AccountOf(p) in ring {
      ExtendedIsUnion(Extended([], PlainKeys(p.keys)), ring[AccountOf(p)]);
    }
    hide Extended, PlainKeys, Unique;
  }

  lemma {:induction false} PlainKeysHas(keys: seq<string>, k: string)
    ensures k in PlainKeys(keys) <==> k in keys && k != "" && k != PLACEHOLDER
  {
    if keys != [] {
      PlainKeysHas(keys[1..], k);
      assert keys == [keys[0]] + keys[1..];
    }
  }

  /** The pool is the one an edit of a provider asks for. */
  ghost predicate Gives(before: Option<Provider>, p: Provider, edit: Edit, ring: Keyring, pool: Option<Pool>) {
    var saved := SavedPool(before, ring);
    match edit
    case Keep => pool == saved
    case Clear => pool == Some([])
    case Replace(newKeys) => pool.Some? && Grown([], newKeys, pool.value)
    case Append(newKeys) =>
      if NothingTyped(newKeys) then pool == if before.Some? then saved else Resolved(ring, {}, p)
      else saved.Some? && pool.Some? && Grown(saved.value, newKeys, pool.value)
  }

  lemma {:induction false} IntendedGives(
    before: Option<Provider>, p: Provider, edit: Edit, ring: Keyring, bad: set<string>
  )
    requires PoolFor(before, p, edit, ring, bad).1.Ok?
    ensures Gives(before, p, edit, ring, Intended(before, p, edit, ring))
  {
    if before.Some? && Resolved(ring, {}, before.value).Some? {
      ResolvedUnique(ring, {}, before.value);
    }
    if before.Some? && Resolved(ring, bad, before.value).Some? {
      ResolvedUnique(ring, bad, before.value);
    }
    if edit.Append? || edit.Replace? {
      var saved := SavedPool(before, ring);
      NormalizedGrows([], edit.newKeys);
      if saved.Some? {
        NormalizedGrows(saved.value, edit.newKeys);
      }
      ExtendedByUnique([], Normalized(edit.newKeys).value) by {
        NormalizedKeys(edit.newKeys);
      }
      assert [] + Normalized(edit.newKeys).value == Normalized(edit.newKeys).value;
    }
    hide Resolved, Normalized, Grown, NothingTyped, HasPlain, Extended;
  }

  // ---------- what was asked for ----------

  /** The submitted keys are the saved ones, or what the page shows of them: then they ask for nothing. */
  ghost predicate Echoes(saved: seq<string>, keys: seq<string>) {
    keys == saved
    || (|keys| == |saved| && forall i | 0 <= i < |keys| ::
          keys[i] == if saved[i] == PLACEHOLDER then PLACEHOLDER else Mask(saved[i]))
  }

  /** On a page, an edit of its own comes first; else keys that echo the saved ones ask for nothing; else they edit. */
  ghost predicate Asked(before: Option<Provider>, p: Provider, edits: map<string, Edit>, edit: Edit) {
    if p.id in edits then edit == edits[p.id]
    else if before.Some? && Echoes(before.value.keys, p.keys) then edit == Keep
    else LegacyEdit(SavedKeys(before), p.keys) == Ok(edit)
  }

  lemma {:induction false} EditForAsked(before: Option<Provider>, p: Provider, edits: map<string, Edit>)
    requires EditFor(before, p, if p.id in edits then Some(edits[p.id]) else None, true).Ok?
    ensures Asked(before, p, edits, EditFor(before, p, if p.id in edits then Some(edits[p.id]) else None, true).value)
  {
    if before.Some? {
      var saved := before.value.keys;
      assert p.keys == MaskAll(saved) <==> |p.keys| == |saved| && forall i | 0 <= i < |saved| ::
        p.keys[i] == if saved[i] == PLACEHOLDER then PLACEHOLDER else Mask(saved[i]);
    }
    hide Mask, LegacyEdit;
  }

  /**
   * How a provider is written. One with a new pool refers to its new account and counts its keys. One that is emptied,
   * or is new and asks for nothing, has no key, no reference and the count zero. One that keeps saved keys, none of
   * them in the clear, keeps them with their reference and count; without keys there is no reference.
   */
  lemma {:induction false} WrittenMeans(
    before: Option<Provider>, p: Provider, explicit: Option<Edit>, pageInput: bool, ring: Keyring, bad: set<string>,
    uuid: string
  )
    requires ProviderStep(before, p, explicit, pageInput, ring, bad, uuid).Ok?
    ensures EditFor(before, p, explicit, pageInput).Ok?
    ensures var (w, prepared) := ProviderStep(before, p, explicit, pageInput, ring, bad, uuid).value;
      var edit := EditFor(before, p, explicit, pageInput).value;
      var empties := edit.Clear? || (edit.Replace? && NothingTyped(edit.newKeys)) || (edit.Keep? && before.None?);
      var keeps := before.Some? && !HasPlain(before.value.keys)
        && (edit.Keep? || (edit.Append? && NothingTyped(edit.newKeys)));
      && (prepared.Some? ==>
           w.keys == [PLACEHOLDER] && w.ref == Some(p.id + ":credential:" + uuid)
           && w.count == Some(|prepared.value.pool|))
      && (empties ==> prepared.None? && w.keys == [] && w.ref.None? && w.count == Some(0))
      && (keeps ==>
           && prepared.None? && w.keys == before.value.keys && w.count == before.value.count
           && w.ref == if w.keys == [] then None else before.value.ref)
  {
    var edit := EditFor(before, p, explicit, pageInput).value;
    if edit.Append? || edit.Replace? {
      if Normalized(edit.newKeys).Some? {
        NormalizedGrows([], edit.newKeys);
      }
    }
    hide EditFor, Normalized, NothingTyped, HasPlain, Resolved, Extended;
  }

  /** A commit of anything else asks nothing of any provider. */
  lemma {:induction false} NothingAsked(before: Option<Provider>, p: Provider)
    ensures EditFor(before, p, None, false) == Ok(Keep)
  {
  }
}
