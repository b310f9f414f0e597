/** Normal forms of agent and account identifiers (pkg/routing/agent_id.go). */
module AgentId {
  import opened Text

  const DEFAULT_AGENT_ID := "main"
  const DEFAULT_ACCOUNT_ID := "default"
  const MAX_LENGTH := 64
  const DASH: set<char> := {'-'}

  predicate IsAlphanumeric(c: char) {
    'a' <= c <= 'z' || '0' <= c <= '9'
  }

  predicate IsIdChar(c: char) {
    IsAlphanumeric(c) || c == '_' || c == '-'
  }

  predicate AllIdChars(s: string) {
    forall i :: 0 <= i < |s| ==> IsIdChar(s[i])
  }

  /** The pattern of identifiers that are taken as they are. */
  predicate ValidId(s: string) {
    1 <= |s| <= MAX_LENGTH && IsAlphanumeric(s[0]) && AllIdChars(s)
  }

  /** Every run of other characters becomes one dash; `inRun` tells that the characters before belong to one. */
  function Collapse(s: string, inRun: bool): string {
    if s == "" then ""
    else if IsIdChar(s[0]) then [s[0]] + Collapse(s[1..], false)
    else (if inRun then "" else "-") + Collapse(s[1..], true)
  }

  function StripDashes(s: string): string {
    TrimRight(s[Skip(s, DASH)..], DASH)
  }

  function Normalize(id: string, default: string): string {
    var trimmed := TrimSpace(id);
    if trimmed == "" then default
    else
      var lower := ToLower(trimmed);
      if ValidId(lower) then lower
      else
        var result := StripDashes(Collapse(lower, false));
        var result := if |result| > MAX_LENGTH then result[..MAX_LENGTH] else result;
        if result == "" then default else result
  }

  function NormalizeAgentID(id: string): string {
    Normalize(id, DEFAULT_AGENT_ID)
  }

  function NormalizeAccountID(id: string): string {
    Normalize(id, DEFAULT_ACCOUNT_ID)
  }

  /** One to 64 characters of [a-z0-9_-], the first of them no dash. */
  predicate IsNormal(s: string) {
    1 <= |s| <= MAX_LENGTH && AllIdChars(s) && s[0] != '-'
  }

  // ---------------------------------------------------------------- what normalising makes of an identifier

  /** a-z, 0-9, underscore, dash. */
  predicate Kept(c: char) {
    97 <= c as int <= 122 || 48 <= c as int <= 57 || c == '_' || c == '-'
  }

  /** The stretch of `s` gives the one character `c`: it is a kept character, or a whole run of others for a dash. */
  ghost predicate Gives(s: string, from: nat, to: nat, c: char) {
    && from < to <= |s|
    && (Kept(s[from]) ==> to == from + 1 && c == s[from])
    && (!Kept(s[from]) ==> c == '-' && (forall j :: from <= j < to ==> !Kept(s[j])) && (to < |s| ==> Kept(s[to])))
  }

  /** `cuts` divides `s` from its first cut on into the stretches that give the characters of `d`. */
  ghost predicate Divides(s: string, d: string, cuts: seq<nat>) {
    && |cuts| == |d| + 1 && cuts[|d|] == |s|
    && forall i :: 0 <= i < |d| ==> Gives(s, cuts[i], cuts[i + 1], d[i])
  }

  lemma GivesLater(s: string, from: nat, to: nat, c: char)
    requires s != "" && Gives(s[1..], from, to, c)
    ensures Gives(s, from + 1, to + 1, c)
  {
    assert forall j :: from <= j < to ==> s[1..][j] == s[j + 1];
    assert to < |s[1..]| ==> s[1..][to] == s[to + 1];
    forall j | from + 1 <= j < to + 1 && !Kept(s[from + 1]) ensures !Kept(s[j]) {
      assert s[j] == s[1..][j - 1];
    }
  }

  function Later(cuts: seq<nat>): (r: seq<nat>)
    ensures |r| == |cuts| && forall i :: 0 <= i < |r| ==> r[i] == cuts[i] + 1
  {
    seq(|cuts|, i requires 0 <= i < |cuts| => cuts[i] + 1)
  }

  lemma DividesLater(s: string, d: string, cuts: seq<nat>)
    requires s != "" && Divides(s[1..], d, cuts)
    ensures Divides(s, d, Later(cuts))
  {
    forall i | 0 <= i < |d| ensures Gives(s, Later(cuts)[i], Later(cuts)[i + 1], d[i]) {
      GivesLater(s, cuts[i], cuts[i + 1], d[i]);
    }
  }

  lemma OneMoreGiven(s: string, c: char, d: string, cuts: seq<nat>)
    requires Divides(s, d, cuts) && Gives(s, 0, cuts[0], c)
    ensures Divides(s, [c] + d, [0] + cuts)
  {
    hide Gives;
    var e, more := [c] + d, [0] + cuts;
    forall i | 0 <= i < |e| ensures Gives(s, more[i], more[i + 1], e[i]) {
      if i > 0 {
        assert Gives(s, cuts[i - 1], cuts[i], d[i - 1]);
      }
    }
  }

  /** The first `n` characters are others than those that are kept, and the next one is kept. */
  ghost predicate BeginsRun(s: string, n: nat) {
    n <= |s| && (forall j :: 0 <= j < n ==> !Kept(s[j])) && (n < |s| ==> Kept(s[n]))
  }

  lemma RunGrows(s: string, n: nat)
    requires s != "" && !Kept(s[0]) && BeginsRun(s[1..], n)
    ensures BeginsRun(s, n + 1) && Gives(s, 0, n + 1, '-')
  {
    assert forall j :: 0 < j <= n ==> s[j] == s[1..][j - 1];
  }

  lemma {:induction false} CollapseDivides(s: string, inRun: bool) returns (cuts: seq<nat>)
    ensures Divides(s, Collapse(s, inRun), cuts)
    ensures if inRun then BeginsRun(s, cuts[0]) else cuts[0] == 0
  {
    if s == "" {
      cuts := [0];
    } else {
      var d := Collapse(s[1..], !IsIdChar(s[0]));
      cuts := CollapseDivides(s[1..], !IsIdChar(s[0]));
      hide Divides, Gives, BeginsRun;
      var rest := cuts;
      DividesLater(s, d, rest);
      cuts := Later(rest);
      if IsIdChar(s[0]) {
        KeptGives(s);
        OneMoreGiven(s, s[0], d, cuts);
        cuts := [0] + cuts;
      } else {
        RunGrows(s, rest[0]);
        if !inRun {
          OneMoreGiven(s, '-', d, cuts);
          cuts := [0] + cuts;
        }
      }
    }
  }

  lemma KeptGives(s: string)
    requires s != "" && Kept(s[0])
    ensures Gives(s, 0, 1, s[0]) && BeginsRun(s, 0)
  {
  }

  /** `r` is `d` without the dashes around it, cut after 64 characters; `default` when nothing is left. */
  ghost predicate IsStripped(d: string, default: string, r: string) {
    exists a: nat, b: nat :: IsStrippedAt(d, default, r, a, b)
  }

  ghost predicate IsStrippedAt(d: string, default: string, r: string, a: nat, b: nat) {
    && a <= b <= |d| && (forall i :: 0 <= i < a || b <= i < |d| ==> d[i] == '-')
    && (a == b ==> r == default)
    && (a < b ==> d[a] != '-' && d[b - 1] != '-' && r == d[a..if b <= a + 64 then b else a + 64])
  }

  ghost predicate IsCollapsed(s: string, d: string) {
    exists cuts :: Divides(s, d, cuts) && cuts[0] == 0
  }

  lemma StripsAround(d: string, default: string, r: string)
    requires r == var s := StripDashes(d); if s == "" then default else s[..if |s| > 64 then 64 else |s|]
    ensures IsStripped(d, default, r)
  {
    var a := Skip(d, DASH);
    var t := d[a..];
    var n := Keep(t, DASH);
    assert StripDashes(d) == t[..n] == d[a..a + n];
    forall i | a + n <= i < |d| ensures d[i] == '-' {
      assert t[i - a] in DASH;
    }
    assert n > 0 ==> t[n - 1] == d[a + n - 1] && t[0] == d[a];
    assert IsStrippedAt(d, default, r, a, a + n);
  }

  lemma ValidExactly(s: string)
    ensures ValidId(s) <==> 1 <= |s| <= 64 && s[0] != '_' && s[0] != '-' && forall c <- s :: Kept(c)
  {
    if ValidId(s) {
      forall c <- s ensures Kept(c) {
        var i :| 0 <= i < |s| && s[i] == c;
        assert IsIdChar(s[i]);
      }
    } else if forall c <- s :: Kept(c) {
      assert forall i :: 0 <= i < |s| ==> s[i] in s && IsIdChar(s[i]);
    }
  }

  lemma NormalizedIsStripped(id: string, default: string)
    requires !ValidId(ToLower(TrimSpace(id)))
    ensures IsStripped(Collapse(ToLower(TrimSpace(id)), false), default, Normalize(id, default))
  {
    hide TrimSpace, ToLower, StripDashes, IsStripped, ValidId, Collapse;
    var lower := ToLower(TrimSpace(id));
    var s := StripDashes(Collapse(lower, false));
    if lower == "" {
      NothingCollapses(default);
    } else {
      assert s != "" ==> s[..|s|] == s;
      StripsAround(Collapse(lower, false), default, Normalize(id, default));
    }
  }

  lemma NothingCollapses(default: string)
    ensures IsStripped(Collapse("", false), default, default)
  {
    assert IsStrippedAt("", default, default, 0, 0);
  }

  /** `r` is the normal form of the trimmed lower-case `s`. What fits the documented pattern is taken as it is. Of
      anything else each run of characters outside [a-z0-9_-] becomes one dash, the dashes around are taken away,
      and the rest is cut after 64 characters; where nothing is left the default is taken. */
  ghost predicate IsNormalForm(s: string, default: string, r: string) {
    if 1 <= |s| <= 64 && s[0] != '_' && s[0] != '-' && forall c <- s :: Kept(c) then r == s
    else exists d :: IsCollapsed(s, d) && IsStripped(d, default, r)
  }

  lemma NormalizeMeans(id: string)
    ensures IsNormalForm(ToLower(TrimSpace(id)), "main", NormalizeAgentID(id))
    ensures IsNormalForm(ToLower(TrimSpace(id)), "default", NormalizeAccountID(id))
  {
    hide IsNormalForm, Normalize;
    NormalizesTo(id, DEFAULT_AGENT_ID);
    NormalizesTo(id, DEFAULT_ACCOUNT_ID);
  }

  lemma NormalizesTo(id: string, default: string)
    ensures IsNormalForm(ToLower(TrimSpace(id)), default, Normalize(id, default))
  {
    var lower := ToLower(TrimSpace(id));
    ValidExactly(lower);
    if !ValidId(lower) {
      hide TrimSpace, ToLower, Normalize, Collapse, IsCollapsed, IsStripped, Divides, ValidId, StripDashes, Kept;
      var cuts := CollapseDivides(lower, false);
      NormalizedIsStripped(id, default);
      CutsCollapse(lower, Collapse(lower, false), cuts);
    }
  }

  lemma CutsCollapse(s: string, d: string, cuts: seq<nat>)
    requires Divides(s, d, cuts) && cuts[0] == 0
    ensures IsCollapsed(s, d)
  {
  }

  /** Identifiers that differ only in the case of letters and in blanks around them normalise to one form. */
  lemma AlikeNormalizeAlike(a: string, b: string, default: string)
    requires Alike(a, b)
    ensures Normalize(a, default) == Normalize(b, default)
  {
    NormalFormsAlike(a, b);
  }

  lemma {:induction false} CollapsedAreIdChars(s: string, inRun: bool)
    ensures AllIdChars(Collapse(s, inRun))
  {
    if s != "" {
      CollapsedAreIdChars(s[1..], !IsIdChar(s[0]));
    }
  }

  lemma {:induction false} CollapseKeepsIdChars(s: string)
    requires AllIdChars(s)
    ensures Collapse(s, false) == s
  {
    if s != "" {
      CollapseKeepsIdChars(s[1..]);
    }
  }

  /** Identifiers normalise to normal forms; in particular none is empty or holds a colon. */
  lemma NormalizedIsNormal(id: string, default: string)
    requires IsNormal(default)
    ensures IsNormal(Normalize(id, default))
  {
    hide TrimSpace, Collapse, StripDashes, ToLower;
    var lower := ToLower(TrimSpace(id));
    var c := Collapse(lower, false);
    CollapsedAreIdChars(lower, false);
    StrippedStart(c);
  }

  lemma StrippedStart(c: string)
    requires AllIdChars(c)
    ensures AllIdChars(StripDashes(c)) && (StripDashes(c) != "" ==> StripDashes(c)[0] != '-')
  {
    var t := c[Skip(c, DASH)..];
    assert StripDashes(c) == t[..Keep(t, DASH)];
  }

  lemma IdsAreNormal(id: string)
    ensures IsNormal(NormalizeAgentID(id)) && IsNormal(NormalizeAccountID(id))
  {
    assert IsNormal(DEFAULT_AGENT_ID) && IsNormal(DEFAULT_ACCOUNT_ID);
    hide Normalize, IsNormal;
    NormalizedIsNormal(id, DEFAULT_AGENT_ID);
    NormalizedIsNormal(id, DEFAULT_ACCOUNT_ID);
  }

  // ---------------------------------------------------------------- the documented form

  /** Of the characters that are kept as they are and are no dashes, the first is an underscore. */
  predicate LeadsWithUnderscore(s: string) {
    s != "" && (s[0] == '_' || ((!IsIdChar(s[0]) || s[0] == '-') && LeadsWithUnderscore(s[1..])))
  }

  /** What is left of the identifier is longer than 64 characters, and the last one before the cut is a dash. */
  predicate CutAtDash(lower: string) {
    var stripped := StripDashes(Collapse(lower, false));
    |stripped| > MAX_LENGTH && stripped[MAX_LENGTH - 1] == '-'
  }

  lemma {:induction false} CollapsedLead(s: string, inRun: bool)
    ensures var c := Collapse(s, inRun); var k := Skip(c, DASH);
            LeadsWithUnderscore(s) <==> k < |c| && c[k] == '_'
  {
    if s != "" {
      var c, rest := Collapse(s, inRun), Collapse(s[1..], !IsIdChar(s[0]));
      CollapsedLead(s[1..], !IsIdChar(s[0]));
      if s[0] == '-' || (!IsIdChar(s[0]) && !inRun) {
        assert c == "-" + rest && c[1..] == rest;
      } else if !IsIdChar(s[0]) {
        assert c == rest;
      }
    }
  }

  /** The first character left when the dashes around are gone. */
  lemma StrippedLead(c: string)
    ensures var k := Skip(c, DASH);
            if k < |c| then StripDashes(c) != "" && StripDashes(c)[0] == c[k] else StripDashes(c) == ""
  {
    var k := Skip(c, DASH);
    var t := c[k..];
    assert StripDashes(c) == t[..Keep(t, DASH)];
    if k < |c| {
      assert t[0] == c[k];
    }
  }

  /** Identifiers normalise to the documented form, a letter or digit and up to 63 of [a-z0-9_-], exactly when no
      underscore leads them. */
  lemma DocumentedFormExactly(id: string, default: string)
    requires ValidId(default)
    ensures ValidId(Normalize(id, default)) <==> !LeadsWithUnderscore(ToLower(TrimSpace(id)))
  {
    NormalizedIsNormal(id, default);
    var lower := ToLower(TrimSpace(id));
    var c := Collapse(lower, false);
    if !ValidId(lower) {
      hide TrimSpace, Collapse, StripDashes, ToLower, Skip, LeadsWithUnderscore;
      CollapsedLead(lower, false);
      StrippedLead(c);
      CollapsedAreIdChars(lower, false);
      StrippedStart(c);
      assert c != "" ==> IsIdChar(c[if Skip(c, DASH) < |c| then Skip(c, DASH) else 0]);
    }
  }

  /** An identifier that does not: it stays as it is. */
  lemma UnderscoreStays()
    ensures NormalizeAgentID("_bot") == "_bot" && !ValidId(NormalizeAgentID("_bot"))
  {
    var id := "_bot";
    assert AllIdChars(id) && id[0] == '_' && id[3] == 't';
    NormalizeFixpoints(id, DEFAULT_AGENT_ID);
  }

  /** The result ends with a dash exactly when the identifier is valid as it is and ends with one, or is cut right
      behind one. */
  lemma TrailingDashExactly(id: string, default: string)
    requires IsNormal(default) && default[|default| - 1] != '-'
    ensures IsNormal(Normalize(id, default))
    ensures var n, lower := Normalize(id, default), ToLower(TrimSpace(id));
            n[|n| - 1] == '-' <==> if ValidId(lower) then lower[|lower| - 1] == '-' else CutAtDash(lower)
  {
    hide TrimSpace, Collapse, StripDashes, ToLower, ValidId, IsNormal;
    NormalizedIsNormal(id, default);
    var lower := ToLower(TrimSpace(id));
    StrippedEnd(Collapse(lower, false));
    IsNormalIsNotEmpty(Normalize(id, default));
    ValidIsNotEmpty(lower);
    if lower == "" {
      NothingToCut();
    }
  }

  lemma NothingToCut()
    ensures !CutAtDash("")
  {
  }

  lemma ValidIsNotEmpty(s: string)
    ensures ValidId(s) ==> s != ""
  {
  }

  lemma IsNormalIsNotEmpty(s: string)
    requires IsNormal(s)
    ensures s != ""
  {
  }

  lemma StrippedEnd(c: string)
    ensures var s := StripDashes(c); s != "" ==> s[|s| - 1] != '-'
  {
  }

  /** Normalising again changes nothing, except when an underscore leads the identifier and it is cut right behind a
      dash. */
  lemma NormalizeTwiceExactly(id: string, default: string)
    requires ValidId(default) && default[|default| - 1] != '-'
    ensures var lower := ToLower(TrimSpace(id));
            Normalize(Normalize(id, default), default) == Normalize(id, default) <==>
              !(LeadsWithUnderscore(lower) && CutAtDash(lower))
  {
    DocumentedFormExactly(id, default);
    TrailingDashExactly(id, default);
    var lower := ToLower(TrimSpace(id));
    if ValidId(lower) {
      ValidHasNoLead(lower);
    }
    hide Normalize, TrimSpace, ToLower, LeadsWithUnderscore, CutAtDash;
    var n := Normalize(id, default);
    assert IsIdChar(n[0]);
    NormalizeFixpoints(n, default);
  }

  lemma ValidHasNoLead(s: string)
    requires ValidId(s)
    ensures !LeadsWithUnderscore(s)
  {
  }

  /** Not both: begins with an underscore, ends with a dash. */
  predicate IsStable(n: string) {
    n == "" || n[0] != '_' || n[|n| - 1] != '-'
  }

  /** A normal form normalises to itself unless it begins with an underscore and ends with a dash; such forms
      come from cutting at 64 characters. */
  lemma NormalizeFixpoints(n: string, default: string)
    requires IsNormal(n)
    ensures Normalize(n, default) == n <==> IsStable(n)
  {
    NormalIsTrimmed(n);
    NormalIsLower(n);
    if !IsAlphanumeric(n[0]) {
      CollapseKeepsIdChars(n);
      assert n[0..] == n;
      if n[|n| - 1] != '-' {
        assert Keep(n, DASH) == |n|;
        assert n[..|n|] == n;
      } else {
        assert |StripDashes(n)| < |n|;
      }
    }
  }

  /** Normalising a second time never makes a normal form longer, and makes it shorter where it changes it. */
  lemma NormalizeShortens(n: string, default: string)
    requires IsNormal(n)
    ensures |Normalize(n, default)| <= |n|
    ensures Normalize(n, default) != n ==> |Normalize(n, default)| < |n|
  {
    hide TrimSpace, Skip, Keep;
    NormalIsTrimmed(n);
    NormalIsLower(n);
    CollapseKeepsIdChars(n);
    if !IsAlphanumeric(n[0]) {
      assert Skip(n, DASH) == 0;
      assert n[0..] == n && Keep(n, DASH) > 0;
      assert StripDashes(n) == n[..Keep(n, DASH)];
    }
  }

  lemma NormalIsTrimmed(n: string)
    requires IsNormal(n)
    ensures TrimSpace(n) == n
  {
    assert IsIdChar(n[0]) && IsIdChar(n[|n| - 1]);
    TrimSpaceFixpoint(n);
  }

  lemma NormalIsLower(n: string)
    requires AllIdChars(n)
    ensures ToLower(n) == n
  {
    forall i | 0 <= i < |n| ensures Lower(n[i]) == n[i] {
      assert IsIdChar(n[i]);
    }
  }

  /** Such a form exists: normalising twice is not always normalising once. */
  lemma NormalizeTwiceDiffers() returns (id: string)
    ensures NormalizeAgentID(NormalizeAgentID(id)) != NormalizeAgentID(id)
  {
    var stem := "_" + seq(62, _ => 'a') + "-";
    id := stem + "b";
    CutAt64(stem, "b");
    hide Normalize;
    NormalizeFixpoints(stem, DEFAULT_AGENT_ID);
  }

  /** An identifier of more than 64 usable characters is cut there. */
  lemma CutAt64(stem: string, tail: string)
    requires |stem| == MAX_LENGTH && AllIdChars(stem) && stem[0] != '-'
    requires tail != "" && AllIdChars(tail) && tail[|tail| - 1] != '-'
    ensures NormalizeAgentID(stem + tail) == stem
  {
    var id := stem + tail;
    assert AllIdChars(id) by {
      assert forall i :: 0 <= i < |id| ==> id[i] == if i < |stem| then stem[i] else tail[i - |stem|];
    }
    assert id[0] == stem[0] && id[|id| - 1] == tail[|tail| - 1];
    assert id[..MAX_LENGTH] == stem;
    assert IsIdChar(id[0]) && IsIdChar(id[|id| - 1]);
    LongIdIsCut(id);
  }

  lemma LongIdIsCut(id: string)
    requires |id| > MAX_LENGTH && AllIdChars(id) && IsIdChar(id[0]) && IsIdChar(id[|id| - 1])
    requires id[0] != '-' && id[|id| - 1] != '-'
    ensures NormalizeAgentID(id) == id[..MAX_LENGTH]
  {
    hide TrimSpace, Collapse, StripDashes, ToLower, AllIdChars;
    TrimSpaceFixpoint(id);
    NormalIsLower(id);
    CollapseKeepsIdChars(id);
    StripsNothing(id);
    assert StripDashes(Collapse(ToLower(TrimSpace(id)), false)) == id;
  }

  lemma StripsNothing(s: string)
    requires s != "" && s[0] != '-' && s[|s| - 1] != '-'
    ensures StripDashes(s) == s
  {
    assert Skip(s, DASH) == 0 && Keep(s, DASH) == |s|;
    assert s[0..] == s && s[..|s|] == s;
  }
}
