/**
 * What the old string editor means (src-tauri/src/core/config_commit.rs, lines 1184-1234). It submits a list in which
 * the placeholder stands for the saved pool and a mask for one saved key; everything else is a new key.
 */
module LegacyEdits {
  import opened Wrappers
  import opened Credentials

  /** A saved key that is not a mask itself. */
  predicate StandsFor(key: string, mask: string) {
    Mask(key) == mask && !Masked(key)
  }

  /** Exactly one saved key has the mask. */
  ghost predicate Unambiguous(saved: seq<string>, mask: string) {
    exists i | 0 <= i < |saved| :: Only(saved, mask, i)
  }

  ghost predicate Only(saved: seq<string>, mask: string, i: nat)
    requires i < |saved|
  {
    StandsFor(saved[i], mask) && forall j | 0 <= j < |saved| && StandsFor(saved[j], mask) :: j == i
  }

  /** An entry the editor may submit: the placeholder of a saved pool, an unambiguous mask, or a key. */
  ghost predicate Understood(saved: seq<string>, entry: string) {
    if entry == PLACEHOLDER then PLACEHOLDER in saved
    else if Masked(entry) then Unambiguous(saved, entry)
    else true
  }

  /** The key an entry names. */
  ghost predicate Names(saved: seq<string>, entry: string, key: string) {
    if Masked(entry) then key in saved && StandsFor(key, entry) else key == entry
  }

  function NotPlaceholder(entries: seq<string>): seq<string> {
    if entries == [] then []
    else (if entries[0] == PLACEHOLDER then [] else [entries[0]]) + NotPlaceholder(entries[1..])
  }

  /** The keys are those the entries name, in their order. */
  ghost predicate InOrder(saved: seq<string>, entries: seq<string>, keys: seq<string>) {
    && |keys| == |NotPlaceholder(entries)|
    && forall i | 0 <= i < |keys| :: Names(saved, NotPlaceholder(entries)[i], keys[i])
  }

  function NewKeys(edit: Edit): seq<string> {
    if edit.Append? || edit.Replace? then edit.newKeys else []
  }

  lemma {:induction false} MaskedByNone(saved: seq<string>, mask: string)
    ensures MaskedBy(saved, mask) == [] <==> forall i | 0 <= i < |saved| :: !StandsFor(saved[i], mask)
  {
    if saved != [] {
      MaskedByNone(saved[1..], mask);
      hide Mask;
      assert forall i | 0 < i < |saved| :: saved[i] == saved[1..][i - 1];
      assert forall i | 0 <= i < |saved| - 1 :: saved[1..][i] == saved[i + 1];
    }
  }

  lemma {:induction false} OnlyLater(saved: seq<string>, mask: string, i: nat)
    requires i < |saved| - 1 && !StandsFor(saved[0], mask)
    ensures Only(saved[1..], mask, i) <==> Only(saved, mask, i + 1)
  {
    hide StandsFor;
    assert saved[1..][i] == saved[i + 1];
    if Only(saved, mask, i + 1) {
      forall j | 0 <= j < |saved[1..]| && StandsFor(saved[1..][j], mask) ensures j == i {
        assert saved[1..][j] == saved[j + 1];
      }
    }
    if Only(saved[1..], mask, i) {
      forall j | 0 <= j < |saved| && StandsFor(saved[j], mask) ensures j == i + 1 {
        assert j > 0 && saved[1..][j - 1] == saved[j];
      }
    }
  }

  lemma {:induction false} UnambiguousFirst(saved: seq<string>, mask: string)
    requires saved != [] && StandsFor(saved[0], mask)
    ensures Unambiguous(saved, mask) <==> MaskedBy(saved[1..], mask) == []
  {
    MaskedByNone(saved[1..], mask);
    hide StandsFor, MaskedBy;
    assert forall i | 0 < i < |saved| :: saved[i] == saved[1..][i - 1];
    if MaskedBy(saved[1..], mask) == [] {
      assert Only(saved, mask, 0);
    } else {
      var k :| 0 <= k < |saved[1..]| && StandsFor(saved[1..][k], mask);
      assert StandsFor(saved[k + 1], mask);
    }
  }

  lemma {:induction false} UnambiguousLater(saved: seq<string>, mask: string)
    requires saved != [] && !StandsFor(saved[0], mask)
    ensures Unambiguous(saved, mask) <==> Unambiguous(saved[1..], mask)
  {
    forall i | 0 <= i < |saved| - 1 ensures Only(saved[1..], mask, i) <==> Only(saved, mask, i + 1) {
      OnlyLater(saved, mask, i);
    }
    assert !Only(saved, mask, 0);
    hide StandsFor, Only;
    if i :| 0 <= i < |saved| && Only(saved, mask, i) {
      assert Only(saved[1..], mask, i - 1);
    }
  }

  /** The scan finds one key if and only if the mask is unambiguous. */
  lemma {:induction false} MaskedByOne(saved: seq<string>, mask: string)
    ensures |MaskedBy(saved, mask)| == 1 <==> Unambiguous(saved, mask)
    ensures |MaskedBy(saved, mask)| == 1 ==>
      MaskedBy(saved, mask)[0] in saved && StandsFor(MaskedBy(saved, mask)[0], mask)
  {
    if saved != [] {
      MaskedByOne(saved[1..], mask);
      if StandsFor(saved[0], mask) {
        assert MaskedBy(saved, mask) == [saved[0]] + MaskedBy(saved[1..], mask);
        UnambiguousFirst(saved, mask);
      } else {
        assert MaskedBy(saved, mask) == MaskedBy(saved[1..], mask);
        UnambiguousLater(saved, mask);
      }
      hide MaskedBy, StandsFor, Unambiguous;
    }
  }

  function Resulting(keepsPool: bool, keys: seq<string>): Edit {
    if keepsPool then (if keys == [] then Keep else Append(keys)) else if keys == [] then Clear else Replace(keys)
  }

  /**
   * What a submitted list asks for, given the keys taken already: a conflict exactly when some entry is not understood,
   * and else the edit that the placeholder and the named keys, in order, call for.
   */
  ghost predicate Means(
    saved: seq<string>, incoming: seq<string>, taken: seq<string>, preserve: bool, r: Result<Edit, Code>
  ) {
    if forall k | k in Entered(incoming) :: Understood(saved, k) then
      && r.Ok? && taken <= NewKeys(r.value) && InOrder(saved, Entered(incoming), NewKeys(r.value)[|taken|..])
      && r.value == Resulting(preserve || PLACEHOLDER in Entered(incoming), NewKeys(r.value))
    else r == Err(CredentialConflict)
  }

  lemma {:induction false} EnteredCons(incoming: seq<string>)
    requires incoming != []
    ensures var key := Trim(incoming[0]);
      Entered(incoming) == if key == "" then Entered(incoming[1..]) else [key] + Entered(incoming[1..])
  {
  }

  lemma {:induction false} InOrderCons(
    saved: seq<string>, entry: string, rest: seq<string>, key: string, keys: seq<string>
  )
    requires InOrder(saved, rest, keys) && entry != PLACEHOLDER && Names(saved, entry, key)
    ensures InOrder(saved, [entry] + rest, [key] + keys)
  {
    assert ([entry] + rest)[1..] == rest;
    assert NotPlaceholder([entry] + rest) == [entry] + NotPlaceholder(rest);
    hide Names, NotPlaceholder;
  }

  lemma {:induction false} UnderstoodCons(saved: seq<string>, entry: string, rest: seq<string>)
    requires Understood(saved, entry)
    ensures (forall k | k in [entry] + rest :: Understood(saved, k)) <==> forall k | k in rest :: Understood(saved, k)
    ensures PLACEHOLDER in [entry] + rest <==> entry == PLACEHOLDER || PLACEHOLDER in rest
  {
    hide Understood;
    assert forall k :: k in [entry] + rest <==> k == entry || k in rest;
  }

  lemma {:induction false} RefusedRound(saved: seq<string>, incoming: seq<string>, taken: seq<string>, preserve: bool)
    requires incoming != [] && Trim(incoming[0]) != "" && !Understood(saved, Trim(incoming[0]))
    ensures Means(saved, incoming, taken, preserve, Err(CredentialConflict))
  {
    EnteredCons(incoming);
    assert Trim(incoming[0]) in Entered(incoming);
    hide Trim, Understood, Entered;
  }

  lemma {:induction false} PlaceholderRound(
    saved: seq<string>, incoming: seq<string>, taken: seq<string>, preserve: bool, r: Result<Edit, Code>
  )
    requires incoming != [] && Trim(incoming[0]) == PLACEHOLDER && PLACEHOLDER in saved
    requires Means(saved, incoming[1..], taken, true, r)
    ensures Means(saved, incoming, taken, preserve, r)
  {
    EnteredCons(incoming);
    var rest := Entered(incoming[1..]);
    assert Understood(saved, PLACEHOLDER);
    hide Trim, Entered, Understood, Names;
    assert ([PLACEHOLDER] + rest)[1..] == rest;
    assert NotPlaceholder([PLACEHOLDER] + rest) == NotPlaceholder(rest);
    assert forall k :: k in [PLACEHOLDER] + rest <==> k == PLACEHOLDER || k in rest;
    hide NotPlaceholder, Resulting;
  }

  /** One key more was taken: the rest of the list fits behind it. */
  lemma {:induction false} TakenFits(
    saved: seq<string>, entry: string, rest: seq<string>, taken: seq<string>, key: string, all: seq<string>
  )
    requires entry != PLACEHOLDER && Names(saved, entry, key)
    requires taken + [key] <= all && InOrder(saved, rest, all[|taken| + 1..])
    ensures taken <= all && InOrder(saved, [entry] + rest, all[|taken|..])
  {
    hide Names, InOrder;
    var more := all[|taken| + 1..];
    assert (taken + [key])[|taken|] == all[|taken|];
    assert all[|taken|..] == [key] + more && taken <= all;
    InOrderCons(saved, entry, rest, key, more);
  }

  lemma {:induction false} KeyRound(
    saved: seq<string>, incoming: seq<string>, taken: seq<string>, preserve: bool, key: string, r: Result<Edit, Code>
  )
    requires incoming != [] && Trim(incoming[0]) != "" && Trim(incoming[0]) != PLACEHOLDER
    requires Understood(saved, Trim(incoming[0])) && Names(saved, Trim(incoming[0]), key)
    requires Means(saved, incoming[1..], taken + [key], preserve, r)
    ensures Means(saved, incoming, taken, preserve, r)
  {
    EnteredCons(incoming);
    var entry, rest := Trim(incoming[0]), Entered(incoming[1..]);
    hide Trim, Entered, Understood, InOrder, Resulting, Names, NewKeys;
    UnderstoodCons(saved, entry, rest);
    if forall k | k in rest :: Understood(saved, k) {
      assert |taken + [key]| == |taken| + 1;
      TakenFits(saved, entry, rest, taken, key, NewKeys(r.value));
    }
  }

  lemma {:induction false} LegacyFromMeans(
    saved: seq<string>, incoming: seq<string>, taken: seq<string>, preserve: bool
  )
    ensures Means(saved, incoming, taken, preserve, LegacyFrom(saved, incoming, taken, preserve))
    decreases |incoming|
  {
    if incoming != [] {
      var key, rest := Trim(incoming[0]), incoming[1..];
      EnteredCons(incoming);
      MaskedByOne(saved, key);
      assert PLACEHOLDER[0] == '_' && "***"[0] == '*' && !Masked(PLACEHOLDER);
      hide Trim, Mask, Masked, MaskedBy, Means, Entered;
      if key == "" {
        LegacyFromMeans(saved, rest, taken, preserve);
        assert Entered(incoming) == Entered(rest);
        SkippedRound(saved, incoming, taken, preserve);
      } else if !Understood(saved, key) {
        RefusedRound(saved, incoming, taken, preserve);
      } else if key == PLACEHOLDER {
        LegacyFromMeans(saved, rest, taken, true);
        PlaceholderRound(saved, incoming, taken, preserve, LegacyFrom(saved, rest, taken, true));
      } else {
        var found := if Masked(key) then MaskedBy(saved, key)[0] else key;
        assert Masked(key) ==> MaskedBy(saved, key) == [found];
        LegacyFromMeans(saved, rest, taken + [found], preserve);
        KeyRound(saved, incoming, taken, preserve, found, LegacyFrom(saved, rest, taken + [found], preserve));
      }
    }
  }

  lemma {:induction false} SkippedRound(saved: seq<string>, incoming: seq<string>, taken: seq<string>, preserve: bool)
    requires incoming != [] && Entered(incoming) == Entered(incoming[1..])
    requires Means(saved, incoming[1..], taken, preserve, LegacyFrom(saved, incoming[1..], taken, preserve))
    ensures Means(saved, incoming, taken, preserve, LegacyFrom(saved, incoming[1..], taken, preserve))
  {
    hide LegacyFrom, Entered;
  }

  /**
   * The edit is refused if and only if some entry is a placeholder without a saved pool or a mask that stands for no
   * saved key or for several. Otherwise it keeps the pool exactly when the placeholder was submitted, and its new keys
   * are those the other entries name, in their order.
   */
  lemma {:induction false} LegacyEditMeans(saved: seq<string>, incoming: seq<string>)
    ensures LegacyEdit(saved, incoming) == Err(CredentialConflict)
      <==> exists k | k in Entered(incoming) :: !Understood(saved, k)
    ensures LegacyEdit(saved, incoming).Err? ==> LegacyEdit(saved, incoming) == Err(CredentialConflict)
    ensures LegacyEdit(saved, incoming).Ok? ==>
      var edit := LegacyEdit(saved, incoming).value;
      && (edit.Keep? || edit.Append? <==> PLACEHOLDER in Entered(incoming))
      && (edit.Append? || edit.Replace? <==> NewKeys(edit) != [])
      && InOrder(saved, Entered(incoming), NewKeys(edit))
  {
    LegacyFromMeans(saved, incoming, [], false);
    hide LegacyFrom, Entered, Understood, InOrder;
    var r := LegacyEdit(saved, incoming);
    assert r.Ok? ==> NewKeys(r.value)[0..] == NewKeys(r.value);
  }

  // ---------- no key is dropped silently ----------

  lemma {:induction false} NotPlaceholderHas(entries: seq<string>, k: string)
    requires k in entries && k != PLACEHOLDER
    ensures k in NotPlaceholder(entries)
  {
    if entries[0] != k {
      NotPlaceholderHas(entries[1..], k);
    }
  }

  lemma {:induction false} NamedKeyIsNew(saved: seq<string>, incoming: seq<string>, entry: string, key: string)
    requires LegacyEdit(saved, incoming).Ok? && entry in Entered(incoming) && entry != PLACEHOLDER
    requires Names(saved, entry, key)
    ensures key in NewKeys(LegacyEdit(saved, incoming).value)
  {
    LegacyEditMeans(saved, incoming);
    var entries, keys := NotPlaceholder(Entered(incoming)), NewKeys(LegacyEdit(saved, incoming).value);
    NotPlaceholderHas(Entered(incoming), entry);
    var i :| 0 <= i < |entries| && entries[i] == entry;
    assert Names(saved, entry, keys[i]);
    assert Understood(saved, entry);
    hide LegacyEdit, Entered, Mask, StandsFor, NotPlaceholder;
    if Masked(entry) {
      var a :| 0 <= a < |saved| && Only(saved, entry, a);
      assert keys[i] == saved[a] == key;
    }
  }

  /**
   * Whoever submits a list without explicit edits keeps what it stands for. Accepted, the pool that results holds the
   * saved pool in front if the placeholder was among the entries, every saved key whose mask was, and every key
   * entered. A mask that is stale or ambiguous is a conflict instead.
   */
  lemma {:induction false} NothingNamedIsDropped(
    before: Provider, p: Provider, ring: Keyring, entry: string, key: string
  )
    requires LegacyEdit(before.keys, p.keys).Ok? && entry in Entered(p.keys)
    requires Intended(Some(before), p, LegacyEdit(before.keys, p.keys).value, ring).Some?
    ensures var pool := Intended(Some(before), p, LegacyEdit(before.keys, p.keys).value, ring).value;
      && (entry == PLACEHOLDER ==> Resolved(ring, {}, before).Some? && Resolved(ring, {}, before).value <= pool)
      && (entry != PLACEHOLDER && Names(before.keys, entry, key) && Trim(key) != "" ==> Trim(key) in pool)
  {
    var edit := LegacyEdit(before.keys, p.keys).value;
    LegacyEditMeans(before.keys, p.keys);
    if entry != PLACEHOLDER && Names(before.keys, entry, key) {
      NamedKeyIsNew(before.keys, p.keys, entry, key);
    }
    hide LegacyEdit, Resolved, Names, InOrder, Understood;
    if edit.Append? || edit.Replace? {
      NormalizedKeys(edit.newKeys);
      assert key in edit.newKeys ==> exists i | 0 <= i < |edit.newKeys| :: edit.newKeys[i] == key;
      if edit.Append? {
        ExtendedIsUnion(Resolved(ring, {}, before).value, Normalized(edit.newKeys).value);
      }
    }
    hide Normalized, Trim, Extended;
  }
}
