/**
 * The configuration and what a commit makes of it before it touches any store
 * (src-tauri/src/core/config_commit.rs, lines 297-328, 638-721 and 961-1091).
 */
module ConfigModel {
  import opened Wrappers
  import opened Credentials
  import A = Accounts
  import J = Journals

  /** The font preferences, which are committed apart from the page. */
  datatype Fonts = Fonts(sans: string, content: string, mono: string, sizeSans: real, sizeContent: real, sizeMono: real)

  /** `rest` stands for every other field of the settings page. */
  datatype Config = Config(
    schema: nat, lastOp: Option<J.OpId>, providers: seq<Provider>, fonts: Fonts, overrides: map<string, Option<string>>,
    disabledSkills: seq<string>, allowlist: seq<string>, retention: Option<nat>, rest: string)

  const DEFAULT_FONTS := Fonts("", "", "", 14.0, 14.0, 12.0)

  const DEFAULT := Config(2, None, [], DEFAULT_FONTS, map[], [], [], None, "")

  const DELEGABLE_ROLES := {"explore", "backend-dev", "frontend-dev", "app-dev", "reviewer", "product-manager",
                           "code-reviewer", "tester"}

  const RETENTION_DAYS: set<nat> := {1, 3, 7, 14, 30}

  datatype Patch =
    | Page(config: Config, expected: J.Version, edits: map<string, Edit>, skipCleanup: bool)
    | Role(role: string, model: Option<string>, expected: J.Version)
    | SetFonts(fonts: Fonts)
    | Skill(name: string, disabled: bool)
    | AllowCommand(command: string)
    | SecureExisting

  /** The state of one running instance. */
  datatype Memory = Memory(
    boot: string, sequence: nat, pageVersion: nat, roleVersions: map<string, nat>, cfg: Config, seen: Option<Config>,
    blocked: bool)

  // ---------- views of the configuration ----------

  /** `page_comparable`: what the settings page owns. */
  function PageView(c: Config): Config {
    c.(lastOp := None, overrides := map[], fonts := DEFAULT_FONTS)
  }

  /** Everything the page owns is the same: all fields but the last operation, the fonts and the overrides. */
  predicate SamePage(a: Config, b: Config) {
    && a.schema == b.schema && a.providers == b.providers && a.disabledSkills == b.disabledSkills
    && a.allowlist == b.allowlist && a.retention == b.retention && a.rest == b.rest
  }

  lemma {:induction false} SamePageIff(a: Config, b: Config)
    ensures SamePage(a, b) <==> PageView(a) == PageView(b)
    ensures a == b <==> SamePage(a, b) && a.lastOp == b.lastOp && a.fonts == b.fonts && a.overrides == b.overrides
  {
  }

  function RoleVersion(m: Memory, role: string): nat {
    if role in m.roleVersions then m.roleVersions[role] else 0
  }

  /** The model a role is overridden with; a missing entry inherits. */
  function Override(c: Config, role: string): Option<string> {
    if role in c.overrides then c.overrides[role] else None
  }

  function ModelIds(ps: seq<Provider>): set<string> {
    set p, m | p in ps && m in p.models :: m.id
  }

  function Find(ps: seq<Provider>, id: string): Option<Provider> {
    if ps == [] then None else if ps[0].id == id then Some(ps[0]) else Find(ps[1..], id)
  }

  /** The accounts a configuration refers to. */
  function Refs(c: Config): set<string> {
    set p | p in c.providers && ProviderAccount(p).Some? :: ProviderAccount(p).value
  }

  /** An account is in use if and only if a provider with the placeholder names it, or has it as its own id. */
  lemma {:induction false} RefsIff(c: Config, account: string)
    ensures account in Refs(c) <==> exists p | p in c.providers ::
      PLACEHOLDER in p.keys && account == if p.ref.Some? then p.ref.value else p.id
  {
    if account in Refs(c) {
      var p :| p in c.providers && ProviderAccount(p) == Some(account);
      assert PLACEHOLDER in p.keys;
    }
    forall p | p in c.providers && PLACEHOLDER in p.keys && account == AccountOf(p) ensures account in Refs(c) {
      assert ProviderAccount(p) == Some(account);
    }
  }

  // ---------- the draft ----------

  datatype Draft = Draft(config: Config, edits: map<string, Edit>, skipCleanup: bool, pageInput: bool)

  /** `preserve_instant_fields`. */
  function Preserved(updated: Config, current: Config): Config {
    updated.(fonts := current.fonts, overrides := current.overrides, lastOp := current.lastOp)
  }

  function Without(xs: seq<string>, x: string): seq<string> {
    if xs == [] then [] else (if xs[0] == x then [] else [xs[0]]) + Without(xs[1..], x)
  }

  function Drafted(m: Memory, patch: Patch): Result<Draft, Code> {
    match patch
    case Page(config, expected, edits, skipCleanup) =>
      if expected != J.Version(m.boot, m.pageVersion) then Err(Conflict)
      else Ok(Draft(Preserved(config, m.cfg), edits, skipCleanup, true))
    case Role(role, model, expected) =>
      if role !in DELEGABLE_ROLES then Err(InvalidRole)
      else if expected != J.Version(m.boot, RoleVersion(m, role)) then Err(Conflict)
      else if model.Some? && model.value !in ModelIds(m.cfg.providers) then Err(ModelNotFound)
      else Ok(Draft(m.cfg.(overrides := m.cfg.overrides[role := model]), map[], true, false))
    case SetFonts(fonts) =>
      Ok(Draft(m.cfg.(fonts :=
        fonts.(sans := Trim(fonts.sans), content := Trim(fonts.content), mono := Trim(fonts.mono))),
               map[], true, false))
    case Skill(name, disabled) =>
      Ok(Draft(m.cfg.(disabledSkills := Without(m.cfg.disabledSkills, name) + if disabled then [name] else []), map[],
        true, false))
    case AllowCommand(command) =>
      Ok(Draft(m.cfg.(allowlist := if command in m.cfg.allowlist then m.cfg.allowlist else m.cfg.allowlist + [command]),
               map[], true, false))
    case SecureExisting => Ok(Draft(m.cfg, map[], true, false))
  }

  // ---------- validation ----------

  predicate ValidSize(size: real) {
    12.0 <= size <= 20.0 && size == size.Floor as real
  }

  function ModelsFrom(models: seq<Model>, ids: set<string>): Option<set<string>> {
    if models == [] then Some(ids)
    else if models[0].id == "" || models[0].id in ids then None
    else ModelsFrom(models[1..], ids + {models[0].id})
  }

  function ProvidersValid(ps: seq<Provider>, ids: set<string>, models: set<string>): Result<set<string>, Code>
    decreases |ps|
  {
    if ps == [] then Ok(ids)
    else
      var p := ps[0];
      if p.id == "" || p.id in ids || A.HasMarker(p.id) then Err(InvalidProvider)
      else if !p.headersOk then Err(InvalidHeaders)
      else match ModelsFrom(p.models, models)
        case None => Err(InvalidModel)
        case Some(models') => ProvidersValid(ps[1..], ids + {p.id}, models')
  }

  /** `validate_config`. */
  function Validated(c: Config, edits: map<string, Edit>): Result<(), Code> {
    if c.schema != 2 then Err(InvalidConfiguration)
    else if !ValidSize(c.fonts.sizeSans) || !ValidSize(c.fonts.sizeContent) || !ValidSize(c.fonts.sizeMono) then
      Err(InvalidConfiguration)
    else match ProvidersValid(c.providers, {}, {})
      case Err(e) => Err(e)
      case Ok(ids) => if edits.Keys <= ids then Ok(()) else Err(InvalidIntent)
  }

  function Ids(ps: seq<Provider>): set<string> {
    set p | p in ps :: p.id
  }

  predicate DistinctIds(ps: seq<Provider>) {
    forall i, j | 0 <= i < j < |ps| :: ps[i].id != ps[j].id
  }

  function ModelNames(models: seq<Model>): seq<string> {
    if models == [] then [] else [models[0].id] + ModelNames(models[1..])
  }

  function AllModelNames(ps: seq<Provider>): seq<string> {
    if ps == [] then [] else ModelNames(ps[0].models) + AllModelNames(ps[1..])
  }

  /** New, distinct and not empty. */
  ghost predicate Fit(names: seq<string>, taken: set<string>) {
    Unique(names) && forall x | x in names :: x != "" && x !in taken
  }

  function Elements(names: seq<string>): set<string> {
    set x | x in names
  }

  lemma {:induction false} UniqueAppend(a: seq<string>, b: seq<string>)
    ensures Unique(a + b) <==> Unique(a) && Unique(b) && forall x | x in b :: x !in a
  {
    assert forall i | 0 <= i < |a| :: (a + b)[i] == a[i];
    assert forall i | 0 <= i < |b| :: (a + b)[|a| + i] == b[i];
    if Unique(a + b) {
      forall i, j | 0 <= i < j < |b| ensures b[i] != b[j] {
        assert (a + b)[|a| + i] != (a + b)[|a| + j];
      }
      forall i, j | 0 <= i < |a| && 0 <= j < |b| ensures a[i] != b[j] {
        assert (a + b)[i] != (a + b)[|a| + j];
      }
    } else if Unique(a) && Unique(b) && forall x | x in b :: x !in a {
      forall i, j | 0 <= i < j < |a + b| ensures (a + b)[i] != (a + b)[j] {
        if |a| <= i {
          assert b[i - |a|] != b[j - |a|];
        } else if |a| <= j {
          assert b[j - |a|] in b && a[i] in a;
        }
      }
    }
  }

  lemma {:induction false} FitAppend(a: seq<string>, b: seq<string>, taken: set<string>)
    ensures Fit(a + b, taken) <==> Fit(a, taken) && Fit(b, taken + Elements(a))
  {
    UniqueAppend(a, b);
    hide Unique;
    assert forall x :: x in a + b <==> x in a || x in b;
  }

  lemma {:induction false} ModelsFromMeans(models: seq<Model>, ids: set<string>)
    ensures ModelsFrom(models, ids).Some? <==> Fit(ModelNames(models), ids)
    ensures ModelsFrom(models, ids).Some? ==> ModelsFrom(models, ids).value == ids + Elements(ModelNames(models))
  {
    if models != [] {
      ModelsFromMeans(models[1..], ids + {models[0].id});
      FitAppend([models[0].id], ModelNames(models[1..]), ids);
      assert Elements([models[0].id]) == {models[0].id};
      assert Fit([models[0].id], ids) <==> models[0].id != "" && models[0].id !in ids by {
        assert [models[0].id][0] in [models[0].id];
      }
      assert Elements(ModelNames(models)) == {models[0].id} + Elements(ModelNames(models[1..]));
    }
  }

  ghost predicate ProvidersFit(ps: seq<Provider>, ids: set<string>) {
    DistinctIds(ps) && forall p | p in ps :: p.id != "" && !A.HasMarker(p.id) && p.headersOk && p.id !in ids
  }

  lemma {:induction false} DistinctIdsCons(p: Provider, rest: seq<Provider>)
    ensures DistinctIds([p] + rest) <==> DistinctIds(rest) && forall x | x in rest :: x.id != p.id
  {
    var ps := [p] + rest;
    assert ps[0] == p && forall i | 0 <= i < |rest| :: ps[i + 1] == rest[i];
    if DistinctIds(ps) {
      forall i | 0 <= i < |rest| ensures rest[i].id != p.id {
        assert ps[0].id != ps[i + 1].id;
      }
      forall i, j | 0 <= i < j < |rest| ensures rest[i].id != rest[j].id {
        assert ps[i + 1].id != ps[j + 1].id;
      }
    }
  }

  lemma {:induction false} ProvidersFitCons(p: Provider, rest: seq<Provider>, ids: set<string>)
    ensures ProvidersFit([p] + rest, ids) <==>
      p.id != "" && !A.HasMarker(p.id) && p.headersOk && p.id !in ids && ProvidersFit(rest, ids + {p.id})
  {
    DistinctIdsCons(p, rest);
    hide A.HasMarker, DistinctIds;
    assert forall x :: x in [p] + rest <==> x == p || x in rest;
  }

  lemma {:induction false} ProvidersValidMeans(ps: seq<Provider>, ids: set<string>, models: set<string>)
    ensures ProvidersValid(ps, ids, models).Ok? <==> ProvidersFit(ps, ids) && Fit(AllModelNames(ps), models)
    ensures ProvidersValid(ps, ids, models).Ok? ==> ProvidersValid(ps, ids, models).value == ids + Ids(ps)
    decreases |ps|
  {
    if ps != [] {
      var p, rest := ps[0], ps[1..];
      assert ps == [p] + rest;
      ModelsFromMeans(p.models, models);
      ProvidersValidMeans(rest, ids + {p.id}, models + Elements(ModelNames(p.models)));
      ProvidersFitCons(p, rest, ids);
      FitAppend(ModelNames(p.models), AllModelNames(rest), models);
      assert Ids(ps) == {p.id} + Ids(rest);
      hide A.HasMarker, ModelsFrom, ProvidersFit, Fit, Ids, Elements, ModelNames;
    }
  }

  /**
   * A configuration is accepted if and only if its format and font sizes are valid, its provider ids are distinct,
   * not empty and not to be confused with account names, its headers are valid, its model ids are distinct over
   * all providers, and the credential edits name its providers.
   */
  lemma {:induction false} ValidatedMeans(c: Config, edits: map<string, Edit>)
    ensures Validated(c, edits).Ok? <==>
      && c.schema == 2 && ValidSize(c.fonts.sizeSans) && ValidSize(c.fonts.sizeContent) && ValidSize(c.fonts.sizeMono)
      && DistinctIds(c.providers) && (forall p | p in c.providers :: p.id != "" && !A.HasMarker(p.id) && p.headersOk)
      && Unique(AllModelNames(c.providers)) && "" !in AllModelNames(c.providers)
      && edits.Keys <= Ids(c.providers)
  {
    ProvidersValidMeans(c.providers, {}, {});
    assert {} + Ids(c.providers) == Ids(c.providers);
    hide A.HasMarker, ProvidersValid, AllModelNames, Ids;
  }

  /** Overrides that name a removed model are dropped. */
  function Cleaned(c: Config): Config {
    c.(overrides := map role | role in c.overrides ::
         if c.overrides[role].Some? && c.overrides[role].value !in ModelIds(c.providers) then None
           else c.overrides[role])
  }

  // ---------- the provider loop ----------

  function EditOf(edits: map<string, Edit>, id: string): Option<Edit> {
    if id in edits then Some(edits[id]) else None
  }

  function StepAt(current: Config, d: Draft, ring: Keyring, bad: set<string>, uuids: seq<string>, i: nat)
    : Result<(Provider, Option<Prepared>), Code>
    requires i < |d.config.providers| <= |uuids|
  {
    var p := d.config.providers[i];
    ProviderStep(Find(current.providers, p.id), p, EditOf(d.edits, p.id), d.pageInput, ring, bad, uuids[i])
  }

  function PreparedSeq(prepared: Option<Prepared>): seq<Prepared> {
    if prepared.Some? then [prepared.value] else []
  }

  function ProvidersFrom(current: Config, d: Draft, ring: Keyring, bad: set<string>, uuids: seq<string>, i: nat)
    : Result<(seq<Provider>, seq<Prepared>), Code>
    requires i <= |d.config.providers| <= |uuids|
    decreases |d.config.providers| - i
  {
    if i == |d.config.providers| then Ok(([], []))
    else match StepAt(current, d, ring, bad, uuids, i)
      case Err(e) => Err(e)
      case Ok((p, prepared)) =>
        match ProvidersFrom(current, d, ring, bad, uuids, i + 1)
        case Err(e) => Err(e)
        case Ok((ps, more)) => Ok(([p] + ps, PreparedSeq(prepared) + more))
  }

  /** `assert_persistable`: nothing but the placeholder may reach the file. */
  predicate Persistable(c: Config) {
    forall p, k | p in c.providers && k in p.keys :: k == PLACEHOLDER
  }

  lemma {:induction false} ProvidersFromAt(
    current: Config, d: Draft, ring: Keyring, bad: set<string>, uuids: seq<string>, i: nat, j: nat
  )
    requires i <= j < |d.config.providers| <= |uuids| && ProvidersFrom(current, d, ring, bad, uuids, i).Ok?
    ensures var (ps, prepared) := ProvidersFrom(current, d, ring, bad, uuids, i).value;
      && |ps| == |d.config.providers| - i
      && StepAt(current, d, ring, bad, uuids, j).Ok?
      && ps[j - i] == StepAt(current, d, ring, bad, uuids, j).value.0
      && (StepAt(current, d, ring, bad, uuids, j).value.1.Some? ==>
        StepAt(current, d, ring, bad, uuids, j).value.1.value in prepared)
    decreases j - i
  {
    hide StepAt;
    ProvidersFromSize(current, d, ring, bad, uuids, i);
    if i < j {
      ProvidersFromAt(current, d, ring, bad, uuids, i + 1, j);
    }
  }

  lemma {:induction false} ProvidersFromSize(
    current: Config, d: Draft, ring: Keyring, bad: set<string>, uuids: seq<string>, i: nat
  )
    requires i <= |d.config.providers| <= |uuids| && ProvidersFrom(current, d, ring, bad, uuids, i).Ok?
    ensures |ProvidersFrom(current, d, ring, bad, uuids, i).value.0| == |d.config.providers| - i
    decreases |d.config.providers| - i
  {
    hide StepAt;
    if i < |d.config.providers| {
      ProvidersFromSize(current, d, ring, bad, uuids, i + 1);
    }
  }

  /** Each prepared pool comes from one round of the loop. */
  lemma {:induction false} PreparedComesFrom(
    current: Config, d: Draft, ring: Keyring, bad: set<string>, uuids: seq<string>, i: nat, x: Prepared
  )
      returns (j: nat)
    requires i <= |d.config.providers| <= |uuids| && ProvidersFrom(current, d, ring, bad, uuids, i).Ok?
    requires x in ProvidersFrom(current, d, ring, bad, uuids, i).value.1
    ensures i <= j < |d.config.providers| && StepAt(current, d, ring, bad, uuids, j).Ok?
    ensures StepAt(current, d, ring, bad, uuids, j).value.1 == Some(x)
    decreases |d.config.providers| - i
  {
    hide StepAt;
    if StepAt(current, d, ring, bad, uuids, i).value.1 == Some(x) {
      j := i;
    } else {
      j := PreparedComesFrom(current, d, ring, bad, uuids, i + 1, x);
    }
  }
}
