/** Decimal text of a number, and that it determines the number. */
module Decimal {

  function DigitChar(d: nat): char
    requires d < 10
  {
    ['0', '1', '2', '3', '4', '5', '6', '7', '8', '9'][d]
  }

  function Text(n: nat): (s: string)
    ensures |s| > 0
    ensures forall i | 0 <= i < |s| :: '0' <= s[i] <= '9'
  {
    if n < 10 then [DigitChar(n)] else Text(n / 10) + [DigitChar(n % 10)]
  }

  /** The number a text of digits stands for. */
  function Value(s: string): nat
    requires forall i | 0 <= i < |s| :: '0' <= s[i] <= '9'
  {
    if s == "" then 0 else 10 * Value(s[..|s| - 1]) + (s[|s| - 1] as int - '0' as int)
  }

  /** The text stands for its number, and has no leading zero. */
  lemma {:induction false} TextIsDecimal(n: nat)
    ensures Value(Text(n)) == n && (n > 0 ==> Text(n)[0] != '0') && (n == 0 ==> Text(n) == "0")
  {
    var s := Text(n);
    assert DigitChar(n % 10) as int - '0' as int == n % 10;
    if n >= 10 {
      TextIsDecimal(n / 10);
      assert s[..|s| - 1] == Text(n / 10) && s[0] == Text(n / 10)[0];
    } else {
      assert s[..0] == "" && Value(s) == 10 * Value(s[..0]) + (s[0] as int - '0' as int);
    }
  }

  lemma {:induction false} TextInjective(m: nat, n: nat)
    requires Text(m) == Text(n)
    ensures m == n
  {
    TextIsDecimal(m);
    TextIsDecimal(n);
  }
}

/** Provider-facing names of MCP tools (src-tauri/src/mcp/tools.rs). */
module ToolNames {
  import opened Wrappers
  import Decimal
  import opened Lists

  datatype McpTool = McpTool(server: string, name: string, description: string, schema: string)
  datatype McpToolDef = McpToolDef(functionName: string, description: string, schema: string)
  type Owner = (string, string)

  // ---------- names ----------

  predicate LegalChar(c: char) {
    'a' <= c <= 'z' || 'A' <= c <= 'Z' || '0' <= c <= '9' || c == '-' || c == '_'
  }

  predicate Legal(s: string) {
    s != "" && forall c | c in s :: LegalChar(c)
  }

  function SanitizeChars(s: string): (r: string)
    ensures |r| == |s|
    ensures forall i | 0 <= i < |s| :: r[i] == if LegalChar(s[i]) then s[i] else '_'
  {
    seq(|s|, i requires 0 <= i < |s| => if LegalChar(s[i]) then s[i] else '_')
  }

  /** `sanitize_component`: a legal name, and a name that was legal stays as it is. */
  function SanitizeComponent(s: string): (r: string)
    ensures Legal(r)
    ensures Legal(s) ==> r == s
  {
    var out := SanitizeChars(s);
    if out == "" then "_" else out
  }

  const SMALL := "abcdefghijklmnopqrstuvwxyz"
  const CAPITAL := "ABCDEFGHIJKLMNOPQRSTUVWXYZ"

  /** What a provider allows in a name. */
  predicate Allowed(c: char) {
    c in SMALL || c in CAPITAL || c in "0123456789-_"
  }

  lemma {:induction false} SmallIff(c: char)
    ensures c in SMALL <==> 'a' <= c <= 'z'
  {
    if 'a' <= c <= 'z' {
      assert SMALL[c as int - 'a' as int] == c;
    }
  }

  lemma {:induction false} CapitalIff(c: char)
    ensures c in CAPITAL <==> 'A' <= c <= 'Z'
  {
    if 'A' <= c <= 'Z' {
      assert CAPITAL[c as int - 'A' as int] == c;
    }
  }

  lemma {:induction false} LegalCharIff(c: char)
    ensures LegalChar(c) <==> Allowed(c)
  {
    SmallIff(c);
    CapitalIff(c);
    hide SMALL, CAPITAL;
  }

  /** Every character a provider does not allow becomes an underscore, in its place; so does the empty name. */
  lemma {:induction false} SanitizeMeans(s: string)
    ensures var r := SanitizeComponent(s);
      if s == "" then r == "_"
      else |r| == |s| && forall i | 0 <= i < |s| :: r[i] == if Allowed(s[i]) then s[i] else '_'
  {
    forall i | 0 <= i < |s| ensures LegalChar(s[i]) <==> Allowed(s[i]) {
      LegalCharIff(s[i]);
    }
    hide LegalChar, Allowed;
  }

  function ServerFunctionName(server: string, tool: string): (r: string)
    ensures Legal(r)
  {
    "mcp__" + SanitizeComponent(server) + "__" + SanitizeComponent(tool)
  }

  function Numbered(base: string, n: nat): string {
    base + "__" + Decimal.Text(n)
  }

  lemma {:induction false} NumberedInjective(base: string, m: nat, n: nat)
    requires Numbered(base, m) == Numbered(base, n)
    ensures m == n
  {
    assert Numbered(base, m)[|base + "__"|..] == Decimal.Text(m);
    assert Numbered(base, n)[|base + "__"|..] == Decimal.Text(n);
    Decimal.TextInjective(m, n);
  }

  lemma {:induction false} NumberedLegal(base: string, n: nat)
    requires Legal(base)
    ensures Legal(Numbered(base, n))
  {
  }

  // ---------- the order of allocation ----------

  predicate OwnerLe(a: Owner, b: Owner) {
    if a.0 == b.0 then StrLe(a.1, b.1) else StrLe(a.0, b.0)
  }

  lemma {:induction false} OwnerLeOrder(a: Owner, b: Owner, c: Owner)
    ensures OwnerLe(a, b) || OwnerLe(b, a)
    ensures OwnerLe(a, b) && OwnerLe(b, a) ==> a == b
    ensures OwnerLe(a, b) && OwnerLe(b, c) ==> OwnerLe(a, c)
  {
    StrLeOrder(a.0, b.0, c.0);
    StrLeOrder(a.1, b.1, c.1);
    StrLeOrder(b.0, c.0, a.0);
    StrLeOrder(c.0, a.0, b.0);
  }

  function OwnerOf(t: McpTool): Owner {
    (t.server, t.name)
  }

  predicate ToolLe(a: McpTool, b: McpTool) {
    OwnerLe(OwnerOf(a), OwnerOf(b))
  }

  /** The library's stable sort by (server, name). */
  function SortTools(tools: seq<McpTool>): seq<McpTool> {
    SortBy(ToolLe, tools)
  }

  function Owners(tools: seq<McpTool>): seq<Owner> {
    Map(OwnerOf, tools)
  }

  predicate SortedTools(s: seq<McpTool>) {
    forall i, j | 0 <= i < j < |s| :: OwnerLe(OwnerOf(s[i]), OwnerOf(s[j]))
  }

  lemma {:induction false} SortSorts(tools: seq<McpTool>)
    ensures SortedTools(SortTools(tools))
    ensures multiset(SortTools(tools)) == multiset(tools)
    ensures var s := SortTools(tools);
      forall i, j | 0 <= i < j < |s| ::
        Before(s[i].server, s[j].server)
        || (s[i].server == s[j].server && (s[i].name == s[j].name || Before(s[i].name, s[j].name)))
  {
    forall a, b, c
      ensures ToolLe(a, b) || ToolLe(b, a)
      ensures ToolLe(a, b) && ToolLe(b, c) ==> ToolLe(a, c)
    {
      OwnerLeOrder(OwnerOf(a), OwnerOf(b), OwnerOf(c));
    }
    SortBySorts(ToolLe, tools);
    var s := SortTools(tools);
    assert forall i, j | 0 <= i < j < |s| :: ToolLe(s[i], s[j]);
    forall i, j | 0 <= i < j < |s|
      ensures Before(s[i].server, s[j].server)
        || (s[i].server == s[j].server && (s[i].name == s[j].name || Before(s[i].name, s[j].name)))
    {
      assert ToolLe(s[i], s[j]);
      StrLeIff(s[i].server, s[j].server);
      StrLeIff(s[i].name, s[j].name);
      hide StrLe, Before;
    }
  }

  lemma {:induction false} OwnerOrderIsTotal()
    ensures TotalOrder(OwnerLe)
  {
    forall a, b, c
      ensures OwnerLe(a, b) || OwnerLe(b, a)
      ensures OwnerLe(a, b) && OwnerLe(b, a) ==> a == b
      ensures OwnerLe(a, b) && OwnerLe(b, c) ==> OwnerLe(a, c)
    {
      OwnerLeOrder(a, b, c);
    }
  }

  lemma {:induction false} SortedOwnersUnique(a: seq<McpTool>, b: seq<McpTool>)
    requires multiset(a) == multiset(b)
    ensures Owners(SortTools(a)) == Owners(SortTools(b))
  {
    SortSorts(a);
    SortSorts(b);
    MapKeepsPermutation(OwnerOf, SortTools(a), SortTools(b));
    OwnerOrderIsTotal();
    hide OwnerLe, SortTools;
    SortedUnique(OwnerLe, Owners(SortTools(a)), Owners(SortTools(b)));
  }

  // ---------- allocation ----------

  /** What the `__N` search settles on: the plain name, else the least free number from 2 on. */
  ghost predicate IsFreeName(base: string, used: set<string>, name: string) {
    if base !in used then name == base
    else exists n: nat | n >= 2 ::
      && name == Numbered(base, n) && name !in used
      && forall k: nat | 2 <= k < n :: Numbered(base, k) in used
  }

  lemma {:induction false} FreeNameUnique(base: string, used: set<string>, x: string, y: string)
    requires IsFreeName(base, used, x) && IsFreeName(base, used, y)
    ensures x == y
  {
    if base in used {
      var m: nat :| m >= 2 && x == Numbered(base, m) && x !in used && forall k: nat | 2 <= k < m ::
        Numbered(base, k) in used;
      var n: nat :| n >= 2 && y == Numbered(base, n) && y !in used && forall k: nat | 2 <= k < n ::
        Numbered(base, k) in used;
    }
  }

  /** The names the search tries, in order. */
  function Candidate(base: string, i: nat): string {
    if i == 0 then base else Numbered(base, i + 1)
  }

  lemma {:induction false} CandidateInjective(base: string, i: nat, j: nat)
    requires Candidate(base, i) == Candidate(base, j)
    ensures i == j
  {
    if i > 0 && j > 0 {
      NumberedInjective(base, i + 1, j + 1);
    } else {
      assert |Candidate(base, i)| == |Candidate(base, j)|;
    }
  }

  function Prefix(names: seq<string>, n: nat): set<string>
    requires n <= |names|
  {
    set i | 0 <= i < n :: names[i]
  }

  function BaseName(o: Owner): string {
    ServerFunctionName(o.0, o.1)
  }

  /** The names given to a list of owners, in its order. */
  ghost predicate Allocated(owners: seq<Owner>, names: seq<string>) {
    && |names| == |owners|
    && forall i | 0 <= i < |owners| :: IsFreeName(BaseName(owners[i]), Prefix(names, i), names[i])
  }

  lemma {:induction false} AllocationUnique(owners: seq<Owner>, a: seq<string>, b: seq<string>, n: nat)
    requires Allocated(owners, a) && Allocated(owners, b) && n <= |owners|
    ensures forall i | 0 <= i < n :: a[i] == b[i]
  {
    hide IsFreeName, BaseName;
    if n > 0 {
      AllocationUnique(owners, a, b, n - 1);
      assert Prefix(a, n - 1) == Prefix(b, n - 1);
      FreeNameUnique(BaseName(owners[n - 1]), Prefix(a, n - 1), a[n - 1], b[n - 1]);
    }
  }

  lemma {:induction false} AllocatedDistinctLegal(owners: seq<Owner>, names: seq<string>)
    requires Allocated(owners, names)
    ensures forall i, j | 0 <= i < j < |names| :: names[i] != names[j]
    ensures forall i | 0 <= i < |names| :: Legal(names[i])
  {
    forall j | 0 <= j < |names|
      ensures names[j] !in Prefix(names, j) && Legal(names[j])
    {
      var base := BaseName(owners[j]);
      assert IsFreeName(base, Prefix(names, j), names[j]);
      if base in Prefix(names, j) {
        var n: nat :| n >= 2 && names[j] == Numbered(base, n) && names[j] !in Prefix(names, j);
        NumberedLegal(base, n);
      }
    }
  }

  /** A tool is called by the prefix, its server and its name, and a number if that is taken. */
  lemma {:induction false} AllocatedNames(owners: seq<Owner>, names: seq<string>, i: nat)
    requires Allocated(owners, names) && i < |owners|
    ensures var plain := "mcp__" + SanitizeComponent(owners[i].0) + "__" + SanitizeComponent(owners[i].1);
      if plain !in names[..i] then names[i] == plain
      else exists n: nat | n >= 2 ::
        && names[i] == plain + "__" + Decimal.Text(n) && names[i] !in names[..i]
        && forall k: nat | 2 <= k < n :: plain + "__" + Decimal.Text(k) in names[..i]
  {
    var plain := BaseName(owners[i]);
    assert Prefix(names, i) == set x | x in names[..i] by {
      assert forall j | 0 <= j < i :: names[..i][j] == names[j];
    }
    assert IsFreeName(plain, Prefix(names, i), names[i]);
    if plain in names[..i] {
      var n: nat :| n >= 2 && names[i] == Numbered(plain, n) && names[i] !in Prefix(names, i)
        && forall k: nat | 2 <= k < n :: Numbered(plain, k) in Prefix(names, i);
      assert forall k: nat | 2 <= k < n :: plain + "__" + Decimal.Text(k) == Numbered(plain, k);
      assert names[i] == plain + "__" + Decimal.Text(n);
    }
  }

  function Names(defs: seq<McpToolDef>): (r: seq<string>)
    ensures |r| == |defs| && forall i | 0 <= i < |defs| :: r[i] == defs[i].functionName
  {
    seq(|defs|, i requires 0 <= i < |defs| => defs[i].functionName)
  }

  /** The inverse index of an allocation. */
  ghost predicate Inverts(index: map<string, Owner>, owners: seq<Owner>, names: seq<string>) {
    && |names| == |owners|
    && index.Keys == Prefix(names, |names|)
    && forall i | 0 <= i < |names| :: names[i] in index && index[names[i]] == owners[i]
  }

  /**
   * The inner search of `build_tool_defs`. It ends because every refused candidate is a further
   * key of the finite index.
   */
  method FreeName(base: string, index: map<string, Owner>) returns (functionName: string)
    ensures IsFreeName(base, index.Keys, functionName)
  {
    functionName := base;
    var n := 2;
    ghost var refused: set<string> := {};
    while functionName in index
      invariant n >= 2 && functionName == Candidate(base, n - 2)
      invariant refused == set i: nat | i < n - 2 :: Candidate(base, i)
      invariant refused <= index.Keys
      decreases |index| - |refused|
    {
      forall i: nat | i < n - 2 ensures functionName != Candidate(base, i) {
        if functionName == Candidate(base, i) {
          CandidateInjective(base, i, n - 2);
        }
      }
      SubsetMissing(refused, functionName, index.Keys);
      refused := refused + {functionName};
      functionName := Numbered(base, n);
      n := n + 1;
    }
    if n > 2 {
      assert Candidate(base, 0) in refused;
      forall k: nat | 2 <= k < n - 1 ensures Numbered(base, k) in index {
        assert Candidate(base, k - 1) in refused;
      }
    }
  }

  lemma {:induction false} PrefixExtends(names: seq<string>, name: string, n: nat)
    requires n <= |names|
    ensures Prefix(names + [name], n) == Prefix(names, n)
    ensures Prefix(names + [name], |names| + 1) == Prefix(names, |names|) + {name}
  {
    var longer := names + [name];
    forall i | 0 <= i < |names| ensures longer[i] == names[i] {}
    assert longer[|names|] == name;
    assert forall x | x in Prefix(names, n) :: x in Prefix(longer, n);
    assert forall x | x in Prefix(names, |names|) :: x in Prefix(longer, |names| + 1);
  }

  lemma {:induction false} FreeNameIsFree(base: string, used: set<string>, name: string)
    requires IsFreeName(base, used, name)
    ensures name !in used
  {
  }

  lemma {:induction false} IndexKeys(index: map<string, Owner>, owners: seq<Owner>, names: seq<string>)
    requires Inverts(index, owners, names)
    ensures index.Keys == Prefix(names, |names|)
  {
  }

  lemma {:induction false} EmptyAllocation()
    ensures Allocated([], []) && Inverts(map[], [], [])
  {
  }

  lemma {:induction false} ExtendAllocation(owners: seq<Owner>, names: seq<string>, o: Owner, name: string)
    requires Allocated(owners, names)
    requires IsFreeName(BaseName(o), Prefix(names, |names|), name)
    ensures Allocated(owners + [o], names + [name])
  {
    hide IsFreeName, BaseName;
    forall i: nat | i <= |names| ensures Prefix(names + [name], i) == Prefix(names, i) {
      PrefixExtends(names, name, i);
    }
  }

  lemma {:induction false} ExtendIndex(
    index: map<string, Owner>, owners: seq<Owner>, names: seq<string>, o: Owner, name: string
  )
    requires Inverts(index, owners, names) && name !in index
    ensures Inverts(index[name := o], owners + [o], names + [name])
  {
    PrefixExtends(names, name, 0);
  }

  /** `build_tool_defs`. */
  method BuildToolDefs(tools: seq<McpTool>) returns (defs: seq<McpToolDef>, index: map<string, Owner>)
    ensures Allocated(Owners(SortTools(tools)), Names(defs))
    ensures Inverts(index, Owners(SortTools(tools)), Names(defs))
    ensures forall i | 0 <= i < |defs| ::
      defs[i].description == SortTools(tools)[i].description && defs[i].schema == SortTools(tools)[i].schema
  {
    EmptyAllocation();
    hide Allocated, Inverts, BaseName;
    var sorted := SortTools(tools);
    ghost var owners := Owners(sorted);
    index, defs := map[], [];
    var at := 0;
    assert owners[..0] == [] && Names(defs) == [];
    while at < |sorted|
      invariant 0 <= at <= |sorted| && |defs| == at
      invariant Allocated(owners[..at], Names(defs))
      invariant Inverts(index, owners[..at], Names(defs))
      invariant forall i | 0 <= i < at ::
        defs[i].description == sorted[i].description && defs[i].schema == sorted[i].schema
    {
      var t := sorted[at];
      var functionName := FreeName(BaseName(OwnerOf(t)), index);
      FreeNameIsFree(BaseName(OwnerOf(t)), index.Keys, functionName);
      IndexKeys(index, owners[..at], Names(defs));
      ExtendAllocation(owners[..at], Names(defs), owners[at], functionName);
      ExtendIndex(index, owners[..at], Names(defs), owners[at], functionName);
      assert owners[..at + 1] == owners[..at] + [owners[at]];
      index := index[functionName := OwnerOf(t)];
      var def := McpToolDef(functionName, t.description, t.schema);
      assert Names(defs + [def]) == Names(defs) + [functionName];
      defs := defs + [def];
      at := at + 1;
    }
    assert owners[..at] == owners;
  }

  /** The order in which servers report their tools does not matter. */
  lemma {:induction false} PermutationInvariant(
    a: seq<McpTool>, b: seq<McpTool>, namesA: seq<string>, namesB: seq<string>, indexA: map<string, Owner>,
    indexB: map<string, Owner>
  )
    requires multiset(a) == multiset(b)
    requires Allocated(Owners(SortTools(a)), namesA) && Inverts(indexA, Owners(SortTools(a)), namesA)
    requires Allocated(Owners(SortTools(b)), namesB) && Inverts(indexB, Owners(SortTools(b)), namesB)
    ensures namesA == namesB && indexA == indexB
  {
    SortedOwnersUnique(a, b);
    var owners := Owners(SortTools(a));
    AllocationUnique(owners, namesA, namesB, |owners|);
    assert namesA == namesB;
    IndexUnique(owners, namesA, indexA, indexB);
  }

  lemma {:induction false} IndexUnique(
    owners: seq<Owner>, names: seq<string>, a: map<string, Owner>, b: map<string, Owner>
  )
    requires Inverts(a, owners, names) && Inverts(b, owners, names)
    ensures a == b
  {
    forall x | x in a ensures x in b && a[x] == b[x] {
      assert x in Prefix(names, |names|);
    }
    assert a.Keys == b.Keys;
  }

  // ---------- the fallback parser ----------

  predicate DoubleUnderscoreAt(s: string, k: nat) {
    k + 2 <= |s| && s[k] == '_' && s[k + 1] == '_'
  }

  /** `split_once("__")`: the leftmost separator. */
  function FirstSeparator(s: string): (r: Option<nat>)
    ensures r.Some? ==> DoubleUnderscoreAt(s, r.value) && forall k: nat | k < r.value :: !DoubleUnderscoreAt(s, k)
    ensures r.None? ==> forall k: nat :: !DoubleUnderscoreAt(s, k)
  {
    if |s| < 2 then None
    else if s[0] == '_' && s[1] == '_' then Some(0)
    else
      var r := FirstSeparator(s[1..]);
      assert forall k: nat | k > 0 :: DoubleUnderscoreAt(s, k) <==> DoubleUnderscoreAt(s[1..], k - 1);
      match r
      case None => None
      case Some(k) => Some(k + 1)
  }

  /** `parse_function`. */
  function ParseFunction(f: string): Option<Owner> {
    if !("mcp__" <= f) then None
    else
      var rest := f[5..];
      match FirstSeparator(rest)
      case None => None
      case Some(k) =>
        var server, tool := rest[..k], rest[k + 2..];
        if server == "" || tool == "" then None else Some((server, tool))
  }

  /** A name parses if and only if it is the prefix and two parts that are not empty, split at the first separator. */
  lemma {:induction false} ParsesIff(f: string, server: string, tool: string)
    ensures ParseFunction(f) == Some((server, tool)) <==>
      && f == "mcp__" + server + "__" + tool && server != "" && tool != ""
      && forall k: nat | k < |server| :: !DoubleUnderscoreAt(server + "__", k)
  {
    var named := "mcp__" + server + "__" + tool;
    if "mcp__" <= f {
      assert f == "mcp__" + f[5..];
    }
    var rest := server + "__" + tool;
    assert named[5..] == rest && "mcp__" <= named;
    assert DoubleUnderscoreAt(rest, |server|);
    assert rest[..|server|] == server && rest[|server| + 2..] == tool;
    forall k: nat | k < |server| ensures DoubleUnderscoreAt(rest, k) <==> DoubleUnderscoreAt(server + "__", k) {}
    if ParseFunction(f) == Some((server, tool)) {
      var k := FirstSeparator(f[5..]).value;
      assert f[5..] == f[5..][..k] + "__" + f[5..][k + 2..];
      assert f[5..] == rest && k == |server|;
    }
  }

  /**
   * Parsing a built name gives its two parts back exactly when the server part has no separator
   * of its own and does not end in an underscore; this is why lookups go through the index.
   */
  lemma {:induction false} ParseRoundTrip(server: string, tool: string)
    ensures var s := SanitizeComponent(server);
      ParseFunction(ServerFunctionName(server, tool)) == Some((s, SanitizeComponent(tool)))
      <==> (forall k: nat :: !DoubleUnderscoreAt(s, k)) && s[|s| - 1] != '_'
  {
    var s, t := SanitizeComponent(server), SanitizeComponent(tool);
    var f := ServerFunctionName(server, tool);
    var rest := s + "__" + t;
    assert f[5..] == rest && f[..5] == "mcp__";
    assert DoubleUnderscoreAt(rest, |s|);
    var k := FirstSeparator(rest).value;
    assert k <= |s|;
    forall j: nat | j + 1 < |s| ensures DoubleUnderscoreAt(rest, j) <==> DoubleUnderscoreAt(s, j) {}
    if k == |s| {
      assert rest[..k] == s && rest[k + 2..] == t;
      assert !DoubleUnderscoreAt(rest, |s| - 1);
    } else {
      assert |rest[..k]| != |s|;
      if k + 1 == |s| {
        assert s[|s| - 1] == '_';
      } else {
        assert DoubleUnderscoreAt(s, k);
      }
    }
  }
}
