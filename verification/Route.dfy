/** Which agent handles a message (pkg/routing/route.go, pkg/agent/registry.go). */
module Route {
  import opened Options
  import opened Text
  import opened AgentId
  import opened SessionKey

  datatype Pattern = Pattern(channel: string, accountID: string, peer: Option<Peer>, guildID: string, teamID: string)

  datatype Binding = Binding(agentID: string, pattern: Pattern)

  datatype AgentConfig = AgentConfig(id: string, isDefault: bool)

  datatype Config = Config(bindings: seq<Binding>, agents: seq<AgentConfig>, dmScope: Scope, identityLinks: Links)

  datatype RouteInput = RouteInput(channel: string, accountID: string, peer: Option<Peer>, parentPeer: Option<Peer>,
                                   guildID: string, teamID: string)

  datatype ResolvedRoute = ResolvedRoute(agentID: string, channel: string, accountID: string, sessionKey: string,
                                         mainSessionKey: string, matchedBy: string)

  // ---------------------------------------------------------------- what a binding matches

  predicate MatchesAccountID(pattern: string, actual: string) {
    var trimmed := TrimSpace(pattern);
    if trimmed == "" then actual == DEFAULT_ACCOUNT_ID
    else trimmed == "*" || ToLower(trimmed) == ToLower(actual)
  }

  /** The binding is for the message's channel and account. */
  predicate Applies(p: Pattern, channel: string, accountID: string) {
    var matchChannel := ToLower(TrimSpace(p.channel));
    matchChannel != "" && matchChannel == channel && MatchesAccountID(p.accountID, accountID)
  }

  predicate MatchesPeer(p: Pattern, peer: Peer) {
    && p.peer.Some?
    && ToLower(TrimSpace(p.peer.value.kind)) != "" && TrimSpace(p.peer.value.id) != ""
    && ToLower(TrimSpace(p.peer.value.kind)) == ToLower(peer.kind) && TrimSpace(p.peer.value.id) == peer.id
  }

  predicate Matches(expected: string, actual: string) {
    TrimSpace(expected) != "" && TrimSpace(expected) == actual
  }

  predicate IsGeneral(p: Pattern) {
    p.peer.None? && p.guildID == "" && p.teamID == ""
  }

  predicate IsAccountWide(p: Pattern) {
    IsGeneral(p) && TrimSpace(p.accountID) != "*"
  }

  predicate IsChannelWide(p: Pattern) {
    IsGeneral(p) && TrimSpace(p.accountID) == "*"
  }

  const NO_LEVEL := 7

  /** The reasons, from the strongest: the binding is for the peer, the parent peer, the guild, the team, the
      account as a whole, the channel as a whole. */
  predicate AtLevel(p: Pattern, input: RouteInput, level: nat) {
    match level
    case 1 => input.peer.Some? && MatchesPeer(p, input.peer.value)
    case 2 => input.parentPeer.Some? && MatchesPeer(p, input.parentPeer.value)
    case 3 => Matches(p.guildID, TrimSpace(input.guildID))
    case 4 => Matches(p.teamID, TrimSpace(input.teamID))
    case 5 => IsAccountWide(p)
    case 6 => IsChannelWide(p)
    case _ => false
  }

  /** The strongest reason from `level` on for which the binding takes the message; 7 when there is none. */
  function LevelFrom(p: Pattern, input: RouteInput, level: nat): (r: nat)
    requires level <= NO_LEVEL
    ensures level <= r <= NO_LEVEL && (r < NO_LEVEL ==> AtLevel(p, input, r))
    ensures forall l :: level <= l < r ==> !AtLevel(p, input, l)
    decreases NO_LEVEL - level
  {
    if level == NO_LEVEL || AtLevel(p, input, level) then level else LevelFrom(p, input, level + 1)
  }

  function Level(p: Pattern, input: RouteInput): nat {
    LevelFrom(p, input, 1)
  }

  function MatchedBy(level: nat): string {
    match level
    case 1 => "binding.peer"
    case 2 => "binding.peer.parent"
    case 3 => "binding.guild"
    case 4 => "binding.team"
    case 5 => "binding.account"
    case 6 => "binding.channel"
    case _ => "default"
  }

  /** The level of a configured binding, for its channel and account only. */
  function Rank(b: Binding, input: RouteInput): nat {
    var channel, accountID := ToLower(TrimSpace(input.channel)), NormalizeAccountID(input.accountID);
    if Applies(b.pattern, channel, accountID) then Level(b.pattern, input) else NO_LEVEL
  }

  /** `i` is the binding of the smallest (level, position); -1 when no binding takes the message. */
  ghost predicate IsWinner(bindings: seq<Binding>, input: RouteInput, i: int) {
    if i < 0 then
      forall j :: 0 <= j < |bindings| ==> Rank(bindings[j], input) == NO_LEVEL
    else
      && i < |bindings| && Rank(bindings[i], input) < NO_LEVEL
      && forall j :: 0 <= j < |bindings| ==>
           || Rank(bindings[i], input) < Rank(bindings[j], input)
           || (Rank(bindings[i], input) == Rank(bindings[j], input) && i <= j)
  }

  /** The pattern's peer is the given one: the same identifier but for blanks around it in the pattern, of the same
      kind up to case. */
  ghost predicate IsForPeer(p: Pattern, peer: Option<Peer>) {
    && p.peer.Some? && peer.Some? && TrimSpace(p.peer.value.kind) != "" && TrimSpace(p.peer.value.id) != ""
    && SameLetters(TrimSpace(p.peer.value.kind), peer.value.kind) && TrimSpace(p.peer.value.id) == peer.value.id
  }

  /** The channel is named, up to case and blanks; the account is named so, or is the default one where the
      pattern names none, or the pattern takes all accounts. */
  ghost predicate IsForChannel(p: Pattern, input: RouteInput) {
    && TrimSpace(p.channel) != "" && Alike(p.channel, input.channel)
    && (if TrimSpace(p.accountID) == "" then NormalizeAccountID(input.accountID) == "default"
        else TrimSpace(p.accountID) == "*" || SameLetters(TrimSpace(p.accountID), NormalizeAccountID(input.accountID)))
  }

  lemma AppliesExactly(p: Pattern, input: RouteInput)
    ensures Applies(p, ToLower(TrimSpace(input.channel)), NormalizeAccountID(input.accountID)) <==>
              IsForChannel(p, input)
  {
    hide TrimSpace, Normalize;
    NormalFormsAlike(p.channel, input.channel);
    LowerAlike(TrimSpace(p.accountID), NormalizeAccountID(input.accountID));
    LowerIsEmpty(TrimSpace(p.channel));
    hide ToLower, Alike, SameLetters;
  }

  lemma MatchesExactly(p: Pattern, peer: Peer)
    ensures MatchesPeer(p, peer) <==> IsForPeer(p, Some(peer))
  {
    hide TrimSpace;
    if p.peer.Some? {
      LowerAlike(TrimSpace(p.peer.value.kind), peer.kind);
      LowerIsEmpty(TrimSpace(p.peer.value.kind));
    }
    hide ToLower, SameLetters;
  }

  /** The cascade: what the reason a route is reported with says of the binding it was taken from. */
  lemma ReasonsExactly(b: Binding, input: RouteInput)
    ensures var p, reason := b.pattern, MatchedBy(Rank(b, input));
            if !IsForChannel(p, input) then reason == "default"
            else if IsForPeer(p, input.peer) then reason == "binding.peer"
            else if IsForPeer(p, input.parentPeer) then reason == "binding.peer.parent"
            else if TrimSpace(p.guildID) != "" && TrimSpace(p.guildID) == TrimSpace(input.guildID) then
              reason == "binding.guild"
            else if TrimSpace(p.teamID) != "" && TrimSpace(p.teamID) == TrimSpace(input.teamID) then
              reason == "binding.team"
            else if p.peer.Some? || p.guildID != "" || p.teamID != "" then reason == "default"
            else if TrimSpace(p.accountID) != "*" then reason == "binding.account"
            else reason == "binding.channel"
  {
    hide TrimSpace, ToLower, Normalize, MatchesPeer, Applies, IsForPeer, IsForChannel;
    AppliesExactly(b.pattern, input);
    if input.peer.Some? {
      MatchesExactly(b.pattern, input.peer.value);
    }
    if input.parentPeer.Some? {
      MatchesExactly(b.pattern, input.parentPeer.value);
    }
    NoPeerIsForNone(b.pattern);
    var p := b.pattern;
    assert Level(p, input) == if AtLevel(p, input, 1) then 1 else LevelFrom(p, input, 2);
    assert LevelFrom(p, input, 2) == if AtLevel(p, input, 2) then 2 else LevelFrom(p, input, 3);
    assert LevelFrom(p, input, 3) == if AtLevel(p, input, 3) then 3 else LevelFrom(p, input, 4);
    assert LevelFrom(p, input, 4) == if AtLevel(p, input, 4) then 4 else LevelFrom(p, input, 5);
    assert LevelFrom(p, input, 5) == if AtLevel(p, input, 5) then 5 else LevelFrom(p, input, 6);
    assert LevelFrom(p, input, 6) == if AtLevel(p, input, 6) then 6 else LevelFrom(p, input, 7);
  }

  lemma NoPeerIsForNone(p: Pattern)
    ensures !IsForPeer(p, None)
  {
  }

  // ---------------------------------------------------------------- the staged search

  /** `filtered` are the applying bindings, in order; `at` are their positions. */
  ghost predicate IsFilter(bindings: seq<Binding>, channel: string, accountID: string, filtered: seq<Binding>,
                           at: seq<nat>)
  {
    && |at| == |filtered|
    && (forall k :: 0 <= k < |at| ==>
          at[k] < |bindings| && filtered[k] == bindings[at[k]] && Applies(filtered[k].pattern, channel, accountID))
    && (forall k, l :: 0 <= k < l < |at| ==> at[k] < at[l])
    && (forall j :: 0 <= j < |bindings| && Applies(bindings[j].pattern, channel, accountID) ==> j in at)
  }

  lemma FilterStep(bindings: seq<Binding>, i: nat, channel: string, accountID: string,
                     filtered: seq<Binding>, at: seq<nat>)
    requires i < |bindings| && IsFilter(bindings[..i], channel, accountID, filtered, at)
    ensures if Applies(bindings[i].pattern, channel, accountID) then
              IsFilter(bindings[..i + 1], channel, accountID, filtered + [bindings[i]], at + [i])
            else IsFilter(bindings[..i + 1], channel, accountID, filtered, at)
  {
    hide Applies;
    assert bindings[..i + 1] == bindings[..i] + [bindings[i]];
    assert (at + [i])[|at|] == i;
    assert forall j <- at :: j in at + [i];
  }

  method FilterBindings(bindings: seq<Binding>, channel: string, accountID: string)
    returns (filtered: seq<Binding>, ghost at: seq<nat>)
    ensures IsFilter(bindings, channel, accountID, filtered, at)
  {
    hide TrimSpace, ToLower, IsFilter;
    filtered, at := [], [];
    assert IsFilter(bindings[..0], channel, accountID, filtered, at) by {
      EmptyFilter(bindings, channel, accountID);
    }
    for i := 0 to |bindings|
      invariant IsFilter(bindings[..i], channel, accountID, filtered, at)
    {
      var b := bindings[i];
      FilterStep(bindings, i, channel, accountID, filtered, at);
      var matchChannel := ToLower(TrimSpace(b.pattern.channel));
      if matchChannel == "" || matchChannel != channel {
        continue;
      }
      if !MatchesAccountID(b.pattern.accountID, accountID) {
        continue;
      }
      filtered, at := filtered + [b], at + [i];
    }
    assert bindings[..|bindings|] == bindings;
  }

  lemma EmptyFilter(bindings: seq<Binding>, channel: string, accountID: string)
    ensures IsFilter(bindings[..0], channel, accountID, [], [])
  {
  }

  method FindPeerMatch(bindings: seq<Binding>, peer: Peer) returns (r: int)
    ensures -1 <= r < |bindings| && (r >= 0 ==> MatchesPeer(bindings[r].pattern, peer))
    ensures forall k :: 0 <= k < |bindings| && (r < 0 || k < r) ==> !MatchesPeer(bindings[k].pattern, peer)
  {
    for i := 0 to |bindings|
      invariant forall k :: 0 <= k < i ==> !MatchesPeer(bindings[k].pattern, peer)
    {
      var b := bindings[i].pattern;
      if b.peer.None? {
        continue;
      }
      var peerKind, peerID := ToLower(TrimSpace(b.peer.value.kind)), TrimSpace(b.peer.value.id);
      if peerKind == "" || peerID == "" {
        continue;
      }
      if peerKind == ToLower(peer.kind) && peerID == peer.id {
        return i;
      }
    }
    return -1;
  }

  method FindGuildMatch(bindings: seq<Binding>, guildID: string) returns (r: int)
    ensures -1 <= r < |bindings| && (r >= 0 ==> Matches(bindings[r].pattern.guildID, guildID))
    ensures forall k :: 0 <= k < |bindings| && (r < 0 || k < r) ==> !Matches(bindings[k].pattern.guildID, guildID)
  {
    for i := 0 to |bindings|
      invariant forall k :: 0 <= k < i ==> !Matches(bindings[k].pattern.guildID, guildID)
    {
      var matchGuild := TrimSpace(bindings[i].pattern.guildID);
      if matchGuild != "" && matchGuild == guildID {
        return i;
      }
    }
    return -1;
  }

  method FindTeamMatch(bindings: seq<Binding>, teamID: string) returns (r: int)
    ensures -1 <= r < |bindings| && (r >= 0 ==> Matches(bindings[r].pattern.teamID, teamID))
    ensures forall k :: 0 <= k < |bindings| && (r < 0 || k < r) ==> !Matches(bindings[k].pattern.teamID, teamID)
  {
    for i := 0 to |bindings|
      invariant forall k :: 0 <= k < i ==> !Matches(bindings[k].pattern.teamID, teamID)
    {
      var matchTeam := TrimSpace(bindings[i].pattern.teamID);
      if matchTeam != "" && matchTeam == teamID {
        return i;
      }
    }
    return -1;
  }

  method FindAccountMatch(bindings: seq<Binding>) returns (r: int)
    ensures -1 <= r < |bindings| && (r >= 0 ==> IsAccountWide(bindings[r].pattern))
    ensures forall k :: 0 <= k < |bindings| && (r < 0 || k < r) ==> !IsAccountWide(bindings[k].pattern)
  {
    for i := 0 to |bindings|
      invariant forall k :: 0 <= k < i ==> !IsAccountWide(bindings[k].pattern)
    {
      var b := bindings[i].pattern;
      if TrimSpace(b.accountID) == "*" {
        continue;
      }
      if b.peer.Some? || b.guildID != "" || b.teamID != "" {
        continue;
      }
      return i;
    }
    return -1;
  }

  method FindChannelWildcardMatch(bindings: seq<Binding>) returns (r: int)
    ensures -1 <= r < |bindings| && (r >= 0 ==> IsChannelWide(bindings[r].pattern))
    ensures forall k :: 0 <= k < |bindings| && (r < 0 || k < r) ==> !IsChannelWide(bindings[k].pattern)
  {
    for i := 0 to |bindings|
      invariant forall k :: 0 <= k < i ==> !IsChannelWide(bindings[k].pattern)
    {
      var b := bindings[i].pattern;
      if TrimSpace(b.accountID) != "*" {
        continue;
      }
      if b.peer.Some? || b.guildID != "" || b.teamID != "" {
        continue;
      }
      return i;
    }
    return -1;
  }

  // ---------------------------------------------------------------- the agent

  /** The keys under which the registry holds agents. */
  function RegistryKeys(agents: seq<AgentConfig>): set<string> {
    if agents == [] then {DEFAULT_AGENT_ID} else set a <- agents :: NormalizeAgentID(a.id)
  }

  /** The agent is flagged as default and has an identifier. */
  predicate IsFlagged(a: AgentConfig) {
    a.isDefault && TrimSpace(a.id) != ""
  }

  /** The first agent from `i` on that is flagged as default and has an identifier. */
  function FirstDefault(agents: seq<AgentConfig>, i: nat): (r: nat)
    requires i <= |agents|
    ensures i <= r <= |agents| && (r < |agents| ==> IsFlagged(agents[r]))
    ensures forall j :: i <= j < r ==> !IsFlagged(agents[j])
    decreases |agents| - i
  {
    if i == |agents| || (agents[i].isDefault && TrimSpace(agents[i].id) != "") then i else FirstDefault(agents, i + 1)
  }

  function DefaultOf(agents: seq<AgentConfig>): string {
    if agents == [] then DEFAULT_AGENT_ID
    else
      var i := FirstDefault(agents, 0);
      var id := TrimSpace(agents[if i < |agents| then i else 0].id);
      if id == "" then DEFAULT_AGENT_ID else NormalizeAgentID(id)
  }

  function Picked(agents: seq<AgentConfig>, agentID: string): string {
    var n := NormalizeAgentID(TrimSpace(agentID));
    if TrimSpace(agentID) != "" && (agents == [] || n in RegistryKeys(agents)) then n
    else NormalizeAgentID(DefaultOf(agents))
  }

  method ResolveDefaultAgentID(agents: seq<AgentConfig>) returns (r: string)
    ensures r == DefaultOf(agents)
  {
    if |agents| == 0 {
      return DEFAULT_AGENT_ID;
    }
    for i := 0 to |agents|
      invariant FirstDefault(agents, 0) == FirstDefault(agents, i)
    {
      if agents[i].isDefault {
        var id := TrimSpace(agents[i].id);
        if id != "" {
          return NormalizeAgentID(id);
        }
      }
    }
    var id := TrimSpace(agents[0].id);
    if id != "" {
      return NormalizeAgentID(id);
    }
    return DEFAULT_AGENT_ID;
  }

  method PickAgentID(agents: seq<AgentConfig>, agentID: string) returns (r: string)
    ensures r == Picked(agents, agentID)
  {
    hide Normalize, TrimSpace, DefaultOf;
    var trimmed := TrimSpace(agentID);
    if trimmed == "" {
      r := ResolveDefaultAgentID(agents);
      return NormalizeAgentID(r);
    }
    var normalized := NormalizeAgentID(trimmed);
    if |agents| == 0 {
      return normalized;
    }
    for i := 0 to |agents|
      invariant forall k :: 0 <= k < i ==> NormalizeAgentID(agents[k].id) != normalized
    {
      if NormalizeAgentID(agents[i].id) == normalized {
        assert agents[i] in agents;
        return normalized;
      }
    }
    assert normalized !in RegistryKeys(agents);
    r := ResolveDefaultAgentID(agents);
    return NormalizeAgentID(r);
  }

  /** The default flag decides: of the flagged agents with an identifier the first is the default one. Where there is
      none it is the first agent of all, or `main` where that one has no identifier or there are no agents. */
  lemma DefaultExactly(agents: seq<AgentConfig>, i: nat)
    ensures agents == [] ==> DefaultOf(agents) == "main"
    ensures i < |agents| && IsFlagged(agents[i]) && (forall j :: 0 <= j < i ==> !IsFlagged(agents[j])) ==>
              DefaultOf(agents) == NormalizeAgentID(agents[i].id)
    ensures agents != [] && (forall a <- agents :: !IsFlagged(a)) ==>
              DefaultOf(agents) == NormalizeAgentID(agents[0].id)
    ensures forall id :: TrimSpace(id) == "" ==> NormalizeAgentID(id) == "main"
  {
    hide TrimSpace, Normalize, FirstDefault, IsFlagged, DefaultOf;
    forall id | TrimSpace(id) == "" ensures NormalizeAgentID(id) == "main" {
      BlankNormalizes(id);
    }
    DefaultIs(agents);
    if agents != [] && FirstDefault(agents, 0) < |agents| {
      assert agents[FirstDefault(agents, 0)] in agents;
    }
  }

  lemma DefaultIs(agents: seq<AgentConfig>)
    ensures agents == [] ==> DefaultOf(agents) == "main"
    ensures agents != [] ==>
              var r := FirstDefault(agents, 0);
              DefaultOf(agents) == NormalizeAgentID(agents[if r < |agents| then r else 0].id)
  {
    hide TrimSpace, Normalize, FirstDefault;
    if agents != [] {
      var r := FirstDefault(agents, 0);
      var id := agents[if r < |agents| then r else 0].id;
      TrimmedNormalizes(id);
      BlankNormalizes(id);
    }
  }

  lemma BlankNormalizes(id: string)
    ensures TrimSpace(id) == "" ==> NormalizeAgentID(id) == "main"
  {
  }

  /** The agent a route names: the asked one if it has an identifier and is configured, up to normalising, or no agents
      are configured at all; the default one otherwise. */
  lemma PickedExactly(agents: seq<AgentConfig>, agentID: string)
    ensures var known := agents == [] || exists a <- agents :: NormalizeAgentID(a.id) == NormalizeAgentID(agentID);
            Picked(agents, agentID) ==
              NormalizeAgentID(if TrimSpace(agentID) != "" && known then agentID else DefaultOf(agents))
  {
    hide TrimSpace, Normalize, DefaultOf;
    TrimmedNormalizes(agentID);
  }

  // ---------------------------------------------------------------- routed session keys

  lemma LoweredJoin(a: string, rest: string)
    requires AllIdChars(a)
    ensures ToLower(Joined(a, rest)) == Joined(a, ToLower(rest))
  {
    NormalIsLower(a);
    assert ToLower(a) == a;
    var x, y := ToLower(Joined(a, rest)), Joined(a, ToLower(rest));
    assert |x| == |y|;
    assert x[..6] == y[..6] == "agent:";
    assert x == y;
  }

  /** The session key of a route parses to its own remainder, and names the routed agent exactly when that
      identifier is stable. */
  lemma SessionNamesAgent(p: Params, linked: string)
    requires IsNormal(p.agentID) && (linked == "" || Solid(linked))
    ensures ParseAgentSessionKey(ToLower(BuildKey(p, linked))) ==
              Some(ParsedKey(AgentPart(p, linked), ToLower(RestOf(p, linked))))
    ensures AgentPart(p, linked) == p.agentID <==> IsStable(p.agentID)
  {
    hide ParseAgentSessionKey, ToLower, BuildKey, RestOf, PeerID, Normalize, IsMainKey, IsStable, Joined, Solid;
    RestIsSolid(p, linked);
    LowerIsSolid(RestOf(p, linked));
    KeyIsJoined(p, linked);
    AgentPartIsNormal(p, linked);
    LoweredJoin(AgentPart(p, linked), RestOf(p, linked));
    ParseInvertsJoin(AgentPart(p, linked), ToLower(RestOf(p, linked)));
    IdsAreNormal(p.agentID);
    NormalizeFixpoints(p.agentID, DEFAULT_AGENT_ID);
    NormalizeShortens(p.agentID, DEFAULT_AGENT_ID);
    NormalizeShortens(NormalizeAgentID(p.agentID), DEFAULT_AGENT_ID);
  }

  // ---------------------------------------------------------------- the route

  function KeyParams(cfg: Config, input: RouteInput, agentID: string): Params {
    Params(agentID, ToLower(TrimSpace(input.channel)), NormalizeAccountID(input.accountID), input.peer,
           if cfg.dmScope == Unset then Main else cfg.dmScope, cfg.identityLinks)
  }

  ghost predicate IsRouteTo(cfg: Config, input: RouteInput, route: ResolvedRoute) {
    var p := KeyParams(cfg, input, route.agentID);
    && route.channel == p.channel && route.accountID == p.accountID
    && route.mainSessionKey == ToLower(BuildAgentMainSessionKey(route.agentID))
    && (exists linked ::
          IsLinked(p.identityLinks, p.channel, PeerID(p), linked) && route.sessionKey == ToLower(BuildKey(p, linked)))
    && NamesAgent(route.sessionKey, route.agentID)
  }

  /** The session key is for an agent, and for exactly this one when its identifier is stable. */
  predicate NamesAgent(key: string, agentID: string) {
    var parsed := ParseAgentSessionKey(key);
    parsed.Some? && (parsed.value.agentID == agentID <==> IsStable(agentID))
  }

  lemma PickedIsNormal(agents: seq<AgentConfig>, agentID: string)
    ensures IsNormal(Picked(agents, agentID))
  {
    hide Normalize, IsNormal;
    IdsAreNormal(TrimSpace(agentID));
    IdsAreNormal(DefaultOf(agents));
  }

  method Choose(cfg: Config, input: RouteInput, agentID: string, matchedBy: string) returns (route: ResolvedRoute)
    ensures IsRouteTo(cfg, input, route) && IsNormal(route.agentID)
    ensures route.agentID == Picked(cfg.agents, agentID) && route.matchedBy == matchedBy
  {
    hide TrimSpace, ToLower, Normalize, BuildKey, IsLinked, Picked, Solid, IsNormal, ParseAgentSessionKey, IsStable,
         AgentPart, RestOf;
    var resolvedAgentID := PickAgentID(cfg.agents, agentID);
    var p := KeyParams(cfg, input, resolvedAgentID);
    var key, linked := BuildAgentPeerSessionKey(p);
    PickedIsNormal(cfg.agents, agentID);
    SessionNamesAgent(p, linked);
    route := ResolvedRoute(resolvedAgentID, p.channel, p.accountID, ToLower(key),
                           ToLower(BuildAgentMainSessionKey(resolvedAgentID)), matchedBy);
  }

  /** The session key of a route is that of the message's own peer, not of its parent, for the routed agent, the
      trimmed lower-case channel, the normalised account and the configured scope, main when none is set. The key is
      in lower case as a whole, and the parser gives its parts back. */
  lemma RouteKeyExactly(cfg: Config, input: RouteInput, route: ResolvedRoute)
    returns (linked: string, rest: string, c: string)
    requires IsRouteTo(cfg, input, route) && IsNormal(route.agentID)
    ensures route.channel == ToLower(TrimSpace(input.channel)) && route.accountID == NormalizeAccountID(input.accountID)
    ensures var p := Params(route.agentID, route.channel, route.accountID, input.peer,
                            if cfg.dmScope == Unset then Main else cfg.dmScope, cfg.identityLinks);
            && IsLinked(cfg.identityLinks, route.channel, Who(p), linked)
            && IsChannelPart(c, route.channel) && IsRest(rest, p, linked, c)
    ensures var parsed := ParseAgentSessionKey(route.sessionKey);
            && parsed.Some? && parsed.value.rest == ToLower(rest)
            && route.sessionKey == "agent:" + parsed.value.agentID + ":" + ToLower(rest)
    ensures route.mainSessionKey == "agent:" + NormalizeAgentID(route.agentID) + ":main"
  {
    hide IsRest, IsLinked, ToLower, TrimSpace, Normalize, IsNormal, BuildKey, ParseAgentSessionKey, NamesAgent, RestOf,
         PeerID, Who, Solid, BuildAgentMainSessionKey, NormalizeChannel, IsChannelPart, IsStable;
    var p := KeyParams(cfg, input, route.agentID);
    linked :|
      && IsLinked(p.identityLinks, p.channel, PeerID(p), linked)
      && route.sessionKey == ToLower(BuildKey(p, linked));
    LinkedIsSolid(p, linked);
    c, rest := NormalizeChannel(p.channel), RestOf(p, linked);
    RestExactly(p, linked);
    PartsExactly(p);
    LoweredKey(p, linked);
    LoweredMainKey(route.agentID);
  }

  lemma PartsExactly(p: Params)
    ensures PeerID(p) == Who(p) && IsChannelPart(NormalizeChannel(p.channel), p.channel)
  {
  }

  lemma LoweredMainKey(agentID: string)
    ensures ToLower(BuildAgentMainSessionKey(agentID)) == "agent:" + NormalizeAgentID(agentID) + ":main"
  {
    hide Normalize, ToLower;
    IdsAreNormal(agentID);
    LoweredJoin(NormalizeAgentID(agentID), MAIN_KEY);
    assert AllIdChars(MAIN_KEY);
    NormalIsLower(MAIN_KEY);
  }

  lemma LoweredKey(p: Params, linked: string)
    requires IsNormal(p.agentID) && (linked == "" || Solid(linked))
    ensures var key := ToLower(BuildKey(p, linked));
            var parsed := ParseAgentSessionKey(key);
            && parsed.Some? && parsed.value.rest == ToLower(RestOf(p, linked))
            && key == "agent:" + parsed.value.agentID + ":" + ToLower(RestOf(p, linked))
  {
    hide RestOf, ToLower, Normalize, BuildKey, ParseAgentSessionKey, Solid, IsMainKey, IsStable, AgentPart;
    SessionNamesAgent(p, linked);
    KeyIsJoined(p, linked);
    AgentPartIsNormal(p, linked);
    LoweredJoin(AgentPart(p, linked), RestOf(p, linked));
  }

  lemma LinkedIsSolid(p: Params, linked: string)
    ensures IsLinked(p.identityLinks, p.channel, PeerID(p), linked) ==> linked == "" || Solid(linked)
  {
    hide Listed, PeerID;
  }

  /** No filtered binding takes the message for a reason up to `level`. */
  ghost predicate Clear(filtered: seq<Binding>, input: RouteInput, level: nat) {
    forall l :: 0 <= l < |filtered| ==> Level(filtered[l].pattern, input) > level
  }

  ghost predicate NoneAt(filtered: seq<Binding>, input: RouteInput, level: nat, k: int) {
    forall l :: 0 <= l < |filtered| && l < k ==> !AtLevel(filtered[l].pattern, input, level)
  }

  lemma NothingAtZero(filtered: seq<Binding>, input: RouteInput)
    ensures Clear(filtered, input, 0)
  {
  }

  lemma StageClears(filtered: seq<Binding>, input: RouteInput, level: nat)
    requires 1 <= level < NO_LEVEL && Clear(filtered, input, level - 1) && NoneAt(filtered, input, level, |filtered|)
    ensures Clear(filtered, input, level)
  {
    hide AtLevel;
  }

  /** No filtered binding is of a stronger level, and `k` is the first one of this level. */
  ghost predicate IsFirstAt(filtered: seq<Binding>, input: RouteInput, level: nat, k: nat) {
    && 0 < level && Clear(filtered, input, level - 1) && k < |filtered|
    && AtLevel(filtered[k].pattern, input, level) && NoneAt(filtered, input, level, k)
  }

  /** The first filtered binding of the strongest level is the winner. */
  lemma StageWins(bindings: seq<Binding>, input: RouteInput, channel: string, accountID: string,
                  filtered: seq<Binding>, at: seq<nat>, level: nat, k: nat)
    requires channel == ToLower(TrimSpace(input.channel)) && accountID == NormalizeAccountID(input.accountID)
    requires IsFilter(bindings, channel, accountID, filtered, at)
    requires 1 <= level < NO_LEVEL && k < |filtered| && IsFirstAt(filtered, input, level, k)
    ensures IsWinner(bindings, input, at[k]) && Rank(bindings[at[k]], input) == level
    ensures bindings[at[k]] == filtered[k]
  {
    hide TrimSpace, ToLower, Normalize, AtLevel, Applies;
    assert Level(filtered[k].pattern, input) == level;
    forall j | 0 <= j < |bindings|
      ensures level < Rank(bindings[j], input) || (level == Rank(bindings[j], input) && at[k] <= j)
    {
      if Applies(bindings[j].pattern, channel, accountID) {
        var l :| 0 <= l < |at| && at[l] == j;
        assert Level(filtered[l].pattern, input) >= level;
        assert l < k ==> !AtLevel(filtered[l].pattern, input, level);
      }
    }
  }

  lemma NoneWins(bindings: seq<Binding>, input: RouteInput, filtered: seq<Binding>, at: seq<nat>)
    requires IsFilter(bindings, ToLower(TrimSpace(input.channel)), NormalizeAccountID(input.accountID), filtered, at)
    requires Clear(filtered, input, 6)
    ensures IsWinner(bindings, input, -1)
  {
    hide TrimSpace, ToLower, Normalize, AtLevel, Applies;
    forall j | 0 <= j < |bindings| ensures Rank(bindings[j], input) == NO_LEVEL {
      if Applies(bindings[j].pattern, ToLower(TrimSpace(input.channel)), NormalizeAccountID(input.accountID)) {
        var l :| 0 <= l < |at| && at[l] == j;
        assert Level(filtered[l].pattern, input) > 6;
      }
    }
  }

  lemma FilterAt(bindings: seq<Binding>, channel: string, accountID: string, filtered: seq<Binding>, at: seq<nat>)
    requires IsFilter(bindings, channel, accountID, filtered, at)
    ensures |at| == |filtered|
  {
  }

  lemma BlankPeersMatchNone()
    ensures forall p: Pattern, peer: Peer :: TrimSpace(peer.id) == "" ==> !MatchesPeer(p, peer)
  {
    forall p: Pattern, peer: Peer | MatchesPeer(p, peer) ensures TrimSpace(peer.id) != "" {
      TrimSpaceFixpoint(peer.id);
    }
  }

  /** The cascade: `winner` is the position of the chosen binding, -1 when the default agent is chosen. */
  method ResolveRoute(cfg: Config, input: RouteInput) returns (route: ResolvedRoute, ghost winner: int)
    ensures IsWinner(cfg.bindings, input, winner) && IsRouteTo(cfg, input, route) && IsNormal(route.agentID)
    ensures winner < 0 ==> route.agentID == Picked(cfg.agents, DefaultOf(cfg.agents)) && route.matchedBy == "default"
    ensures winner >= 0 ==>
              && route.agentID == Picked(cfg.agents, cfg.bindings[winner].agentID)
              && route.matchedBy == MatchedBy(Rank(cfg.bindings[winner], input))
  {
    hide TrimSpace, ToLower, Normalize, MatchesPeer, IsAccountWide, IsChannelWide, Applies, Picked, DefaultOf,
         IsRouteTo, IsFilter, IsWinner, Rank, Level, Clear, IsNormal;
    var channel, accountID := ToLower(TrimSpace(input.channel)), NormalizeAccountID(input.accountID);
    var bindings, at := FilterBindings(cfg.bindings, channel, accountID);
    FilterAt(cfg.bindings, channel, accountID, bindings, at);
    BlankPeersMatchNone();
    assert Clear(bindings, input, 0) by {
      NothingAtZero(bindings, input);
    }
    var k := -1;
    if input.peer.Some? && TrimSpace(input.peer.value.id) != "" {
      k := FindPeerMatch(bindings, input.peer.value);
      if k >= 0 {
        StageWins(cfg.bindings, input, channel, accountID, bindings, at, 1, k);
        winner := at[k];
        route := Choose(cfg, input, bindings[k].agentID, "binding.peer");
        return;
      }
    }
    StageClears(bindings, input, 1);
    if input.parentPeer.Some? && TrimSpace(input.parentPeer.value.id) != "" {
      k := FindPeerMatch(bindings, input.parentPeer.value);
      if k >= 0 {
        StageWins(cfg.bindings, input, channel, accountID, bindings, at, 2, k);
        winner := at[k];
        route := Choose(cfg, input, bindings[k].agentID, "binding.peer.parent");
        return;
      }
    }
    StageClears(bindings, input, 2);
    var guildID := TrimSpace(input.guildID);
    if guildID != "" {
      k := FindGuildMatch(bindings, guildID);
      if k >= 0 {
        StageWins(cfg.bindings, input, channel, accountID, bindings, at, 3, k);
        winner := at[k];
        route := Choose(cfg, input, bindings[k].agentID, "binding.guild");
        return;
      }
    }
    StageClears(bindings, input, 3);
    var teamID := TrimSpace(input.teamID);
    if teamID != "" {
      k := FindTeamMatch(bindings, teamID);
      if k >= 0 {
        StageWins(cfg.bindings, input, channel, accountID, bindings, at, 4, k);
        winner := at[k];
        route := Choose(cfg, input, bindings[k].agentID, "binding.team");
        return;
      }
    }
    StageClears(bindings, input, 4);
    k := FindAccountMatch(bindings);
    if k >= 0 {
      StageWins(cfg.bindings, input, channel, accountID, bindings, at, 5, k);
      winner := at[k];
      route := Choose(cfg, input, bindings[k].agentID, "binding.account");
      return;
    }
    StageClears(bindings, input, 5);
    k := FindChannelWildcardMatch(bindings);
    if k >= 0 {
      StageWins(cfg.bindings, input, channel, accountID, bindings, at, 6, k);
      winner := at[k];
      route := Choose(cfg, input, bindings[k].agentID, "binding.channel");
      return;
    }
    StageClears(bindings, input, 6);
    NoneWins(cfg.bindings, input, bindings, at);
    winner := -1;
    var id := ResolveDefaultAgentID(cfg.agents);
    route := Choose(cfg, input, id, "default");
  }

  // ---------------------------------------------------------------- routed agents and the registry

  /** None of the first `n` agents behind `i` is configured under the key of agent `i`. */
  predicate IsLast(agents: seq<AgentConfig>, i: nat, n: nat)
    requires i < n <= |agents|
  {
    forall k :: i < k < n ==> NormalizeAgentID(agents[k].id) != NormalizeAgentID(agents[i].id)
  }

  /** Over all configured agents; the last one configured under a key is held. */
  method NewAgentRegistry(agents: seq<AgentConfig>) returns (registry: map<string, AgentConfig>)
    ensures registry.Keys == RegistryKeys(agents)
    ensures forall i :: 0 <= i < |agents| && IsLast(agents, i, |agents|) ==>
                registry[NormalizeAgentID(agents[i].id)] == agents[i]
  {
    hide Normalize;
    registry := map[];
    if |agents| == 0 {
      return map[DEFAULT_AGENT_ID := AgentConfig(DEFAULT_AGENT_ID, true)];
    }
    for i := 0 to |agents|
      invariant registry.Keys == set k | 0 <= k < i :: NormalizeAgentID(agents[k].id)
      invariant forall j :: 0 <= j < i && IsLast(agents, j, i) ==> registry[NormalizeAgentID(agents[j].id)] == agents[j]
    {
      registry := registry[NormalizeAgentID(agents[i].id) := agents[i]];
    }
  }

  /** The identifier under which the registry looks an agent up is normalised once more. */
  predicate IsFound(agents: seq<AgentConfig>, agentID: string) {
    NormalizeAgentID(agentID) in RegistryKeys(agents)
  }

  lemma TrimmedNormalizes(id: string)
    ensures NormalizeAgentID(TrimSpace(id)) == NormalizeAgentID(id)
  {
    TrimSpaceFixpoint(TrimSpace(id));
  }

  /** The default agent is always registered. */
  lemma DefaultIsRegistered(agents: seq<AgentConfig>)
    ensures DefaultOf(agents) in RegistryKeys(agents)
  {
    if agents != [] {
      var i := FirstDefault(agents, 0);
      var a := agents[if i < |agents| then i else 0];
      assert a in agents;
      TrimmedNormalizes(a.id);
    }
  }

  /** With configured agents, every routed agent is a key of the registry exactly when normalising the default
      agent once more gives a key; the default agent itself always is one. */
  lemma RoutedAreRegistered(agents: seq<AgentConfig>)
    requires agents != []
    ensures (forall id :: Picked(agents, id) in RegistryKeys(agents)) <==> IsFound(agents, DefaultOf(agents))
  {
    hide Normalize, TrimSpace, DefaultOf;
    assert TrimSpace("") == "" by {
      TrimSpaceFixpoint("");
    }
    assert Picked(agents, "") == NormalizeAgentID(DefaultOf(agents));
  }

  /** The registry finds every routed agent exactly when its keys are closed under normalising. */
  lemma RoutedAreFound(agents: seq<AgentConfig>)
    requires agents != []
    ensures (forall id :: IsFound(agents, Picked(agents, id))) <==>
                forall key <- RegistryKeys(agents) :: IsFound(agents, key)
  {
    hide Normalize, TrimSpace, DefaultOf;
    DefaultIsRegistered(agents);
    if forall id :: IsFound(agents, Picked(agents, id)) {
      forall key <- RegistryKeys(agents) ensures IsFound(agents, key) {
        var a :| a in agents && NormalizeAgentID(a.id) == key;
        PicksOwnKey(agents, a);
      }
    }
  }

  lemma PicksOwnKey(agents: seq<AgentConfig>, a: AgentConfig)
    requires a in agents
    ensures var key := NormalizeAgentID(a.id); key == Picked(agents, a.id) || NormalizeAgentID(key) == key
  {
    if TrimSpace(a.id) == "" {
      assert NormalizeAgentID(a.id) == DEFAULT_AGENT_ID;
      NormalizeFixpoints(DEFAULT_AGENT_ID, DEFAULT_AGENT_ID);
    } else {
      hide TrimSpace, Normalize, DefaultOf;
      TrimmedNormalizes(a.id);
    }
  }

  /** It suffices that the configured identifiers normalise to stable forms, such as forms that begin with a
      letter or a digit: then every routed agent is a key and the registry finds it under that key. */
  lemma StableIdsRoute(agents: seq<AgentConfig>, id: string)
    requires agents != [] && forall a <- agents :: IsStable(NormalizeAgentID(a.id))
    ensures Picked(agents, id) in RegistryKeys(agents)
    ensures NormalizeAgentID(Picked(agents, id)) == Picked(agents, id)
  {
    hide Normalize, TrimSpace, DefaultOf, IsNormal, IsStable;
    DefaultIsRegistered(agents);
    forall key <- RegistryKeys(agents) ensures NormalizeAgentID(key) == key {
      var a :| a in agents && NormalizeAgentID(a.id) == key;
      IdsAreNormal(a.id);
      NormalizeFixpoints(key, DEFAULT_AGENT_ID);
    }
  }

  /** Without that a configuration exists whose only agent is not found under the identifier it is routed to. */
  lemma RouteMisses() returns (agents: seq<AgentConfig>, id: string)
    ensures agents != [] && Picked(agents, id) !in RegistryKeys(agents)
  {
    hide Normalize, TrimSpace, DefaultOf;
    id := NormalizeTwiceDiffers();
    agents := [AgentConfig(id, true)];
    DefaultIsRegistered(agents);
    assert RegistryKeys(agents) == {NormalizeAgentID(id)};
    id := "";
    TrimSpaceFixpoint(id);
  }

  /** With no configured agents the binding's own agent is routed to, registered only when it normalises to main. */
  lemma EmptyListRoutes(id: string)
    ensures Picked([], id) in RegistryKeys([]) <==> NormalizeAgentID(id) == DEFAULT_AGENT_ID
  {
    assert NormalizeAgentID(DEFAULT_AGENT_ID) == DEFAULT_AGENT_ID by {
      NormalizeFixpoints(DEFAULT_AGENT_ID, DEFAULT_AGENT_ID);
    }
    TrimmedNormalizes(id);
  }
}
