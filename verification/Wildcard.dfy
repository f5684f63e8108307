/** The `*` matcher behind the per-server tool filter (src-tauri/src/mcp/config.rs). */
module Wildcard {

  datatype ToolFilterMode = All | Allow | Deny

  datatype ToolFilter = ToolFilter(mode: ToolFilterMode, list: seq<string>)

  // ---------- what a pattern means ----------

  function StarCount(p: string): nat {
    if p == "" then 0 else (if p[0] == '*' then 1 else 0) + StarCount(p[1..])
  }

  /** The string a pattern becomes when its stars are replaced, left to right, by `fills`. */
  function Fill(p: string, fills: seq<string>): string
    requires |fills| == StarCount(p)
  {
    if p == "" then ""
    else if p[0] == '*' then fills[0] + Fill(p[1..], fills[1..])
    else [p[0]] + Fill(p[1..], fills)
  }

  /** A string matches when some replacement of every star gives it. */
  ghost predicate Matches(p: string, s: string) {
    exists fills: seq<string> | |fills| == StarCount(p) :: Fill(p, fills) == s
  }

  // ---------- the parts between the stars ----------

  /** `p.split('*')`. */
  function SplitStar(p: string): (parts: seq<string>)
    ensures |parts| == StarCount(p) + 1
  {
    if p == "" then [""]
    else
      var rest := SplitStar(p[1..]);
      if p[0] == '*' then [""] + rest else [[p[0]] + rest[0]] + rest[1..]
  }

  function Interleave(parts: seq<string>, fills: seq<string>): string
    requires |parts| == |fills| + 1
  {
    if fills == [] then parts[0] else parts[0] + fills[0] + Interleave(parts[1..], fills[1..])
  }

  /** The parts occur in order in `s`: the first is a prefix, the last one ends the string. */
  ghost predicate PartsMatch(parts: seq<string>, s: string)
    requires parts != []
  {
    if |parts| == 1 then s == parts[0]
    else (
      && StartsWith(s, parts[0])
      && exists k | |parts[0]| <= k <= |s| :: PartsMatch(parts[1..], s[k..]))
  }

  predicate StartsWith(s: string, part: string) {
    part <= s
  }

  predicate EndsWith(s: string, part: string) {
    |part| <= |s| && s[|s| - |part|..] == part
  }

  lemma {:induction false} FillIsInterleave(p: string, fills: seq<string>)
    requires |fills| == StarCount(p)
    ensures Fill(p, fills) == Interleave(SplitStar(p), fills)
  {
    if p == "" {
    } else if p[0] == '*' {
      FillIsInterleave(p[1..], fills[1..]);
      var rest := SplitStar(p[1..]);
      assert ([""] + rest)[1..] == rest;
      assert "" + fills[0] == fills[0];
    } else {
      FillIsInterleave(p[1..], fills);
      var rest := SplitStar(p[1..]);
      var parts := [[p[0]] + rest[0]] + rest[1..];
      assert parts[1..] == rest[1..];
      if fills != [] {
        assert parts[0] + fills[0] == [p[0]] + (rest[0] + fills[0]);
        assert parts[0] + fills[0] + Interleave(rest[1..], fills[1..])
            == [p[0]] + (rest[0] + fills[0] + Interleave(rest[1..], fills[1..]));
      }
    }
  }

  lemma {:induction false} FillsGiveParts(parts: seq<string>, fills: seq<string>)
    requires |parts| == |fills| + 1
    ensures PartsMatch(parts, Interleave(parts, fills))
  {
    if fills != [] {
      FillsGiveParts(parts[1..], fills[1..]);
      var rest := Interleave(parts[1..], fills[1..]);
      var k := |parts[0] + fills[0]|;
      assert (parts[0] + fills[0] + rest)[k..] == rest;
      assert (parts[0] + fills[0] + rest)[..|parts[0]|] == parts[0];
    }
  }

  lemma {:induction false} PartsGiveFills(parts: seq<string>, s: string) returns (fills: seq<string>)
    requires parts != [] && PartsMatch(parts, s)
    ensures |parts| == |fills| + 1 && Interleave(parts, fills) == s
  {
    if |parts| == 1 {
      fills := [];
    } else {
      var k :| |parts[0]| <= k <= |s| && PartsMatch(parts[1..], s[k..]);
      var rest := PartsGiveFills(parts[1..], s[k..]);
      fills := [s[|parts[0]|..k]] + rest;
      assert fills[1..] == rest;
      assert s == s[..|parts[0]|] + s[|parts[0]|..k] + s[k..];
    }
  }

  lemma {:induction false} MatchesIsPartsMatch(p: string, s: string)
    ensures Matches(p, s) <==> PartsMatch(SplitStar(p), s)
  {
    if Matches(p, s) {
      var fills :| |fills| == StarCount(p) && Fill(p, fills) == s;
      FillIsInterleave(p, fills);
      FillsGiveParts(SplitStar(p), fills);
    }
    if PartsMatch(SplitStar(p), s) {
      var fills := PartsGiveFills(SplitStar(p), s);
      FillIsInterleave(p, fills);
    }
  }

  // ---------- one step of the greedy scan ----------

  /** The first part is anchored: it must be a prefix, and the rest starts with a star. */
  lemma {:induction false} AnchoredFirst(part: string, q: seq<string>, s: string)
    requires q != []
    ensures PartsMatch([part] + q, s)
        <==> StartsWith(s, part) && PartsMatch([""] + q, s[|part|..])
  {
    assert ([part] + q)[1..] == q && ([""] + q)[1..] == q;
    if PartsMatch([part] + q, s) {
      var k :| |part| <= k <= |s| && PartsMatch(q, s[k..]);
      assert s[k..] == s[|part|..][k - |part|..];
    }
    if StartsWith(s, part) && PartsMatch([""] + q, s[|part|..]) {
      var k :| 0 <= k <= |s[|part|..]| && PartsMatch(q, s[|part|..][k..]);
      assert s[|part|..][k..] == s[|part| + k..];
    }
  }

  /** A star matches more of a longer string: the exchange argument of the greedy scan. */
  lemma {:induction false} StarAbsorbs(q: seq<string>, s: string, k: nat)
    requires q != [] && k <= |s| && PartsMatch([""] + q, s[k..])
    ensures PartsMatch([""] + q, s)
  {
    assert ([""] + q)[1..] == q;
    var j :| 0 <= j <= |s[k..]| && PartsMatch(q, s[k..][j..]);
    assert s[k..][j..] == s[k + j..];
  }

  lemma {:induction false} LastPart(part: string, s: string)
    ensures PartsMatch(["", part], s) <==> EndsWith(s, part)
  {
    assert ["", part][1..] == [part];
    if EndsWith(s, part) {
      assert PartsMatch([part], s[|s| - |part|..]);
    }
  }

  lemma {:induction false} EmptyPart(q: seq<string>, s: string)
    requires q != []
    ensures PartsMatch(["", ""] + q, s) <==> PartsMatch([""] + q, s)
  {
    assert (["", ""] + q)[1..] == [""] + q;
    if PartsMatch([""] + q, s) {
      assert s[0..] == s;
    }
    if PartsMatch(["", ""] + q, s) {
      var k :| 0 <= k <= |s| && PartsMatch([""] + q, s[k..]);
      StarAbsorbs(q, s, k);
    }
  }

  // ---------- leftmost search ----------

  predicate OccursAt(s: string, part: string, k: nat) {
    k + |part| <= |s| && s[k..k + |part|] == part
  }

  /** `str::find`: the leftmost occurrence, or -1. */
  method Find(s: string, part: string) returns (pos: int)
    ensures pos >= -1
    ensures pos >= 0 ==> OccursAt(s, part, pos) && forall k: nat | k < pos :: !OccursAt(s, part, k)
    ensures pos == -1 ==> forall k: nat :: !OccursAt(s, part, k)
  {
    pos := 0;
    while pos + |part| <= |s|
      invariant forall k: nat | k < pos :: !OccursAt(s, part, k)
    {
      if s[pos..pos + |part|] == part {
        return;
      }
      pos := pos + 1;
    }
    pos := -1;
  }

  /** Whatever place a match gives to a middle part, the leftmost place serves as well. */
  lemma {:induction false} LeftmostServes(part: string, q: seq<string>, s: string, pos: nat)
    requires q != []
    requires OccursAt(s, part, pos) && forall k: nat | k < pos :: !OccursAt(s, part, k)
    ensures PartsMatch(["", part] + q, s) <==> PartsMatch([""] + q, s[pos + |part|..])
  {
    var end := pos + |part|;
    assert (["", part] + q)[1..] == [part] + q;
    if PartsMatch(["", part] + q, s) {
      var k :| 0 <= k <= |s| && PartsMatch([part] + q, s[k..]);
      AnchoredFirst(part, q, s[k..]);
      StartIsOccurrence(s, part, k);
      assert s[k..][|part|..] == s[end..][k - pos..];
      StarAbsorbs(q, s[end..], k - pos);
    }
    if PartsMatch([""] + q, s[end..]) {
      assert s[pos..][|part|..] == s[end..];
      StartIsOccurrence(s, part, pos);
      AnchoredFirst(part, q, s[pos..]);
    }
  }

  lemma {:induction false} StartIsOccurrence(s: string, part: string, k: nat)
    requires k <= |s|
    ensures StartsWith(s[k..], part) <==> OccursAt(s, part, k)
  {
    if k + |part| <= |s| {
      assert s[k..][..|part|] == s[k..k + |part|];
    }
  }

  lemma {:induction false} NoPlaceNoMatch(part: string, q: seq<string>, s: string)
    requires q != [] && forall k: nat :: !OccursAt(s, part, k)
    ensures !PartsMatch(["", part] + q, s)
  {
    assert (["", part] + q)[1..] == [part] + q;
    if PartsMatch(["", part] + q, s) {
      var k :| 0 <= k <= |s| && PartsMatch([part] + q, s[k..]);
      AnchoredFirst(part, q, s[k..]);
      StartIsOccurrence(s, part, k);
    }
  }

  // ---------- the matcher ----------

  /** Anchored first and last parts, leftmost search for the middle ones: sound and complete. */
  method WildcardMatch(pat: string, s: string) returns (matched: bool)
    ensures matched <==> Matches(pat, s)
  {
    var parts := SplitStar(pat);
    MatchesIsPartsMatch(pat, s);
    if |parts| == 1 {
      SplitNoStar(pat);
      return pat == s;
    }
    var rest := s;
    var last := |parts| - 1;
    var i := 0;
    while i <= last
      invariant 0 <= i <= last
      invariant i == 0 ==> rest == s
      invariant i > 0 ==> (PartsMatch(parts, s) <==> PartsMatch([""] + parts[i..], rest))
    {
      var part := parts[i];
      assert parts[i..] == [part] + parts[i + 1..];
      if i == 0 {
        AnchoredFirst(part, parts[1..], s);
        assert parts == [part] + parts[1..];
        if !StartsWith(rest, part) {
          return false;
        }
        rest := rest[|part|..];
      } else if i == last {
        LastPart(part, rest);
        assert [""] + parts[i..] == ["", part];
        return EndsWith(rest, part);
      } else if part == "" {
        assert [""] + parts[i..] == ["", ""] + parts[i + 1..];
        EmptyPart(parts[i + 1..], rest);
      } else {
        assert [""] + parts[i..] == ["", part] + parts[i + 1..];
        var pos := Find(rest, part);
        if pos < 0 {
          NoPlaceNoMatch(part, parts[i + 1..], rest);
          return false;
        }
        LeftmostServes(part, parts[i + 1..], rest, pos);
        rest := rest[pos + |part|..];
      }
      i := i + 1;
    }
    assert false;
    matched := true;
  }

  lemma {:induction false} SplitNoStar(p: string)
    requires StarCount(p) == 0
    ensures SplitStar(p) == [p]
  {
    if p != "" {
      SplitNoStar(p[1..]);
      assert [p[0]] + p[1..] == p;
    }
  }

  // ---------- the filter built on it ----------

  ghost predicate Listed(f: ToolFilter, tool: string) {
    exists i | 0 <= i < |f.list| :: Matches(f.list[i], tool)
  }

  /** `ToolFilter::allows`. */
  method Allows(f: ToolFilter, tool: string) returns (allowed: bool)
    ensures f.mode.All? ==> allowed
    ensures f.mode.Allow? ==> (allowed <==> Listed(f, tool))
    ensures f.mode.Deny? ==> (allowed <==> !Listed(f, tool))
  {
    if f.mode.All? {
      return true;
    }
    var hit := false;
    var i := 0;
    while i < |f.list| && !hit
      invariant 0 <= i <= |f.list|
      invariant hit ==> Listed(f, tool)
      invariant !hit ==> forall j | 0 <= j < i :: !Matches(f.list[j], tool)
    {
      hit := WildcardMatch(f.list[i], tool);
      i := i + 1;
    }
    allowed := if f.mode.Allow? then hit else !hit;
  }
}
