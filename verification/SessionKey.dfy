/** Building and parsing session keys (pkg/routing/session_key.go). */
module SessionKey {
  import opened Options
  import opened Text
  import opened AgentId

  const MAIN_KEY := "main"

  datatype Scope = Unset | Main | PerPeer | PerChannelPeer | PerAccountChannelPeer | OtherScope(name: string)

  datatype Peer = Peer(kind: string, id: string)

  type Links = map<string, seq<string>>

  datatype Params = Params(agentID: string, channel: string, accountID: string, peer: Option<Peer>, scope: Scope,
                           identityLinks: Links)

  datatype ParsedKey = ParsedKey(agentID: string, rest: string)

  function Joined(agent: string, rest: string): string {
    "agent:" + agent + ":" + rest
  }

  function BuildAgentMainSessionKey(agentID: string): string {
    Joined(NormalizeAgentID(agentID), MAIN_KEY)
  }

  function NormalizeChannel(channel: string): string {
    var c := TrimSpace(ToLower(channel));
    if c == "" then "unknown" else c
  }

  /** Text that does not end in whitespace. */
  predicate Solid(s: string) {
    s != "" && s[|s| - 1] !in SPACES
  }

  // ---------------------------------------------------------------- identity links

  /** The spellings under which a peer may be listed: its identifier, alone and with its channel. */
  predicate IsCandidate(channel: string, peerID: string, s: string) {
    var peer, chan := ToLower(TrimSpace(peerID)), ToLower(TrimSpace(channel));
    s == peer || (chan != "" && s == chan + ":" + peer)
  }

  predicate Listed(ids: seq<string>, channel: string, peerID: string) {
    exists i :: 0 <= i < |ids| && ToLower(TrimSpace(ids[i])) != "" &&
                IsCandidate(channel, peerID, ToLower(TrimSpace(ids[i])))
  }

  /** `linked` is a canonical name under which the peer is listed; "" when there is none. */
  ghost predicate IsLinked(links: Links, channel: string, peerID: string, linked: string) {
    if linked == "" then
      TrimSpace(peerID) == "" || forall c <- links :: TrimSpace(c) == "" || !Listed(links[c], channel, peerID)
    else
      TrimSpace(peerID) != "" && exists c <- links :: TrimSpace(c) == linked && Listed(links[c], channel, peerID)
  }

  /** The scan over the links, in whatever order the map yields them. */
  method ResolveLinkedPeerID(identityLinks: Links, channel: string, peerID: string) returns (linked: string)
    ensures IsLinked(identityLinks, channel, peerID, linked) && (linked == "" || Solid(linked))
  {
    hide TrimSpace, ToLower;
    if |identityLinks| == 0 {
      return "";
    }
    var peer := TrimSpace(peerID);
    if peer == "" {
      return "";
    }
    var rest := identityLinks.Keys;
    while rest != {}
      invariant rest <= identityLinks.Keys
      invariant forall c <- identityLinks :: c !in rest ==>
                        TrimSpace(c) == "" || !Listed(identityLinks[c], channel, peerID)
      decreases rest
    {
      var canonical :| canonical in rest;
      rest := rest - {canonical};
      var canonicalName := TrimSpace(canonical);
      if canonicalName == "" {
        continue;
      }
      var ids := identityLinks[canonical];
      var i := 0;
      while i < |ids|
        invariant 0 <= i <= |ids|
        invariant forall k :: 0 <= k < i ==>
                    !(ToLower(TrimSpace(ids[k])) != "" && IsCandidate(channel, peerID, ToLower(TrimSpace(ids[k]))))
      {
        var normalized := ToLower(TrimSpace(ids[i]));
        if normalized != "" && IsCandidate(channel, peerID, normalized) {
          return canonicalName;
        }
        i := i + 1;
      }
    }
    return "";
  }

  /** `id` spells the peer, alone or behind its channel and a colon, up to case and blanks around the three. */
  ghost predicate Spells(id: string, channel: string, peerID: string) {
    && TrimSpace(id) != ""
    && (SameLetters(TrimSpace(id), TrimSpace(peerID)) ||
        (TrimSpace(channel) != "" && SameLetters(TrimSpace(id), TrimSpace(channel) + ":" + TrimSpace(peerID))))
  }

  lemma SpellsExactly(id: string, channel: string, peerID: string)
    ensures Spells(id, channel, peerID) <==>
              ToLower(TrimSpace(id)) != "" && IsCandidate(channel, peerID, ToLower(TrimSpace(id)))
  {
    var i, c, p := TrimSpace(id), TrimSpace(channel), TrimSpace(peerID);
    hide TrimSpace;
    LowerAlike(i, p);
    LowerAlike(i, c + ":" + p);
    LowerJoins(c, p);
    assert ToLower(i) == "" <==> i == "";
    assert ToLower(c) == "" <==> c == "";
    hide ToLower, SameLetters;
  }

  lemma LowerJoins(c: string, p: string)
    ensures ToLower(c + ":" + p) == ToLower(c) + ":" + ToLower(p)
  {
    var x, y := ToLower(c + ":" + p), ToLower(c) + ":" + ToLower(p);
    assert |x| == |y|;
    assert x == y;
  }

  /** A peer is linked exactly when some canonical name that is not blank lists a spelling of it; then it is linked
      to such a name, without the blanks around it. */
  lemma LinkedExactly(links: Links, channel: string, peerID: string, linked: string)
    requires IsLinked(links, channel, peerID, linked)
    ensures linked != "" <==>
              TrimSpace(peerID) != "" && exists c <- links :: TrimSpace(c) != "" && Named(links[c], channel, peerID)
    ensures linked != "" ==> exists c <- links :: TrimSpace(c) == linked && Named(links[c], channel, peerID)
  {
    hide TrimSpace, ToLower, IsCandidate, Spells;
    forall ids: seq<string> ensures Listed(ids, channel, peerID) <==> Named(ids, channel, peerID) {
      ListedExactly(ids, channel, peerID);
    }
  }

  ghost predicate Named(ids: seq<string>, channel: string, peerID: string) {
    exists id <- ids :: Spells(id, channel, peerID)
  }

  lemma ListedExactly(ids: seq<string>, channel: string, peerID: string)
    ensures Listed(ids, channel, peerID) <==> Named(ids, channel, peerID)
  {
    hide TrimSpace, ToLower, IsCandidate, Spells;
    forall id <- ids
      ensures Spells(id, channel, peerID) <==>
                ToLower(TrimSpace(id)) != "" && IsCandidate(channel, peerID, ToLower(TrimSpace(id)))
    {
      SpellsExactly(id, channel, peerID);
    }
  }

  // ---------------------------------------------------------------- the key

  function PeerKind(p: Params): string {
    var kind := if p.peer.None? then "direct" else TrimSpace(p.peer.value.kind);
    if kind == "" then "direct" else kind
  }

  function PeerID(p: Params): string {
    if p.peer.None? then "" else TrimSpace(p.peer.value.id)
  }

  /** The direct peer in the key, collapsed to its canonical name when it has one. */
  function DirectPeer(p: Params, linked: string): string {
    ToLower(if p.scope != Unset && p.scope != Main && PeerID(p) != "" && linked != "" then linked else PeerID(p))
  }

  function AccountRest(p: Params, peerID: string): string {
    NormalizeChannel(p.channel) + ":" + NormalizeAccountID(p.accountID) + ":direct:" + peerID
  }

  function BuildKey(p: Params, linked: string): string {
    var agentID := NormalizeAgentID(p.agentID);
    if PeerKind(p) == "direct" then
      var peerID := DirectPeer(p, linked);
      if peerID == "" then BuildAgentMainSessionKey(agentID)
      else
        match p.scope
        case PerAccountChannelPeer =>
          Joined(agentID, AccountRest(p, peerID))
        case PerChannelPeer => Joined(agentID, NormalizeChannel(p.channel) + ":direct:" + peerID)
        case PerPeer => Joined(agentID, "direct:" + peerID)
        case _ => BuildAgentMainSessionKey(agentID)
    else
      Joined(agentID, GroupRest(p))
  }

  function GroupPeer(p: Params): string {
    var peerID := ToLower(PeerID(p));
    if peerID == "" then "unknown" else peerID
  }

  function GroupRest(p: Params): string {
    NormalizeChannel(p.channel) + ":" + PeerKind(p) + ":" + GroupPeer(p)
  }

  // ---------------------------------------------------------------- parsing

  /** The first colon, or -1. */
  function FirstColon(s: string): (r: int)
    ensures -1 <= r < |s|
    ensures r >= 0 ==> s[r] == ':'
    ensures forall i :: 0 <= i < |s| && (r < 0 || i < r) ==> s[i] != ':'
  {
    if s == "" then -1
    else if s[0] == ':' then 0
    else
      var r := FirstColon(s[1..]);
      if r < 0 then -1 else r + 1
  }

  function ParseAgentSessionKey(sessionKey: string): Option<ParsedKey> {
    var raw := TrimSpace(sessionKey);
    var i := FirstColon(raw);
    if i < 0 then None
    else
      var tail := raw[i + 1..];
      var j := FirstColon(tail);
      if j < 0 || raw[..i] != "agent" then None
      else
        var agentID, rest := TrimSpace(tail[..j]), tail[j + 1..];
        if agentID == "" || rest == "" then None else Some(ParsedKey(agentID, rest))
  }

  ghost predicate ColonFree(s: string) {
    forall i :: 0 <= i < |s| ==> s[i] != ':'
  }

  lemma ColonAt(a: string, rest: string)
    requires ColonFree(a)
    ensures var s := a + ":" + rest; FirstColon(s) == |a| && s[..|a|] == a && s[|a| + 1..] == rest
  {
    var s := a + ":" + rest;
    assert s[|a|] == ':';
    assert forall i :: 0 <= i < |a| ==> s[i] == a[i];
  }

  lemma JoinedShape(agent: string, rest: string)
    requires Solid(rest)
    ensures Joined(agent, rest) == "agent" + ":" + (agent + ":" + rest)
    ensures TrimSpace(Joined(agent, rest)) == Joined(agent, rest)
  {
    hide TrimSpace;
    var key := Joined(agent, rest);
    assert key[0] == 'a' && key[|key| - 1] == rest[|rest| - 1];
    TrimSpaceFixpoint(key);
  }

  /** Joining and parsing are inverse for a normal agent and a remainder that does not end in whitespace. */
  lemma ParseInvertsJoin(agent: string, rest: string)
    requires IsNormal(agent) && Solid(rest)
    ensures ParseAgentSessionKey(Joined(agent, rest)) == Some(ParsedKey(agent, rest))
  {
    hide TrimSpace, FirstColon, Joined;
    JoinedShape(agent, rest);
    ColonAt("agent", agent + ":" + rest);
    NormalIsColonFree(agent);
    ColonAt(agent, rest);
    NormalIsTrimmed(agent);
  }

  lemma NormalIsColonFree(agent: string)
    requires AllIdChars(agent)
    ensures ColonFree(agent)
  {
    forall i | 0 <= i < |agent| ensures agent[i] != ':' {
      assert IsIdChar(agent[i]);
    }
  }

  /** The remainder of the key, as the scope and the peer call for it. */
  function RestOf(p: Params, linked: string): string {
    if PeerKind(p) != "direct" then GroupRest(p)
    else
      var peerID := DirectPeer(p, linked);
      if peerID == "" then MAIN_KEY
      else
        match p.scope
        case PerAccountChannelPeer => AccountRest(p, peerID)
        case PerChannelPeer => NormalizeChannel(p.channel) + ":direct:" + peerID
        case PerPeer => "direct:" + peerID
        case _ => MAIN_KEY
  }

  /** The key of a direct conversation that is not told apart by peer. */
  predicate IsMainKey(p: Params, linked: string) {
    PeerKind(p) == "direct" && (DirectPeer(p, linked) == "" || p.scope.Unset? || p.scope.Main? || p.scope.OtherScope?)
  }

  lemma LowerIsSolid(s: string)
    requires s == "" || Solid(s)
    ensures ToLower(s) == "" || Solid(ToLower(s))
  {
  }

  lemma SuffixIsSolid(x: string, y: string)
    requires Solid(y)
    ensures Solid(x + y)
  {
  }

  lemma RestIsSolid(p: Params, linked: string)
    requires linked == "" || Solid(linked)
    ensures Solid(RestOf(p, linked))
  {
    hide NormalizeChannel, Normalize, ToLower, Solid, PeerID, PeerKind;
    NamesAreSolid();
    PeerIsSolid(p);
    LowerIsSolid(PeerID(p));
    LowerIsSolid(linked);
    hide AccountRest;
    SuffixIsSolid(NormalizeChannel(p.channel) + ":" + PeerKind(p) + ":", GroupPeer(p));
    var peerID := DirectPeer(p, linked);
    if peerID != "" {
      AccountRestIsSolid(p, peerID);
      SuffixIsSolid(NormalizeChannel(p.channel) + ":direct:", peerID);
      SuffixIsSolid("direct:", peerID);
    }
  }

  lemma NamesAreSolid()
    ensures Solid(MAIN_KEY) && Solid("unknown")
  {
  }

  lemma AccountRestIsSolid(p: Params, peerID: string)
    requires Solid(peerID)
    ensures Solid(AccountRest(p, peerID))
  {
    hide NormalizeChannel, Normalize;
  }

  lemma PeerIsSolid(p: Params)
    ensures PeerID(p) == "" || Solid(PeerID(p))
  {
  }

  lemma KeyIsJoined(p: Params, linked: string)
    ensures BuildKey(p, linked) == Joined(AgentPart(p, linked), RestOf(p, linked))
  {
    hide NormalizeChannel, Normalize, DirectPeer;
  }

  /** The agent part of the key: main keys normalise the agent a second time. */
  function AgentPart(p: Params, linked: string): string {
    var a := NormalizeAgentID(p.agentID);
    if IsMainKey(p, linked) then NormalizeAgentID(a) else a
  }

  lemma AgentPartIsNormal(p: Params, linked: string)
    ensures IsNormal(AgentPart(p, linked))
    ensures AgentPart(p, linked) == NormalizeAgentID(p.agentID) <==>
              !IsMainKey(p, linked) || IsStable(NormalizeAgentID(p.agentID))
  {
    var a := NormalizeAgentID(p.agentID);
    hide Normalize, IsMainKey;
    IdsAreNormal(p.agentID);
    IdsAreNormal(a);
    NormalizeFixpoints(a, DEFAULT_AGENT_ID);
  }

  /** Parsing any key of the builder, over all scopes and peers, gives the exact remainder; it gives the
      normalised agent exactly when the key is not a main key or that form is stable. */
  lemma ParseInvertsBuild(p: Params, linked: string)
    requires linked == "" || Solid(linked)
    ensures ParseAgentSessionKey(BuildKey(p, linked)) == Some(ParsedKey(AgentPart(p, linked), RestOf(p, linked)))
    ensures AgentPart(p, linked) == NormalizeAgentID(p.agentID) <==>
              !IsMainKey(p, linked) || IsStable(NormalizeAgentID(p.agentID))
  {
    hide *;
    RestIsSolid(p, linked);
    KeyIsJoined(p, linked);
    AgentPartIsNormal(p, linked);
    ParseInvertsJoin(AgentPart(p, linked), RestOf(p, linked));
  }

  /** The key is the builder's, with the peer collapsed by the identity links, and parses to its parts. */
  method BuildAgentPeerSessionKey(p: Params) returns (key: string, ghost linked: string)
    ensures IsLinked(p.identityLinks, p.channel, PeerID(p), linked) && (linked == "" || Solid(linked))
    ensures key == BuildKey(p, linked)
    ensures ParseAgentSessionKey(key) == Some(ParsedKey(AgentPart(p, linked), RestOf(p, linked)))
  {
    hide TrimSpace, ToLower, Normalize, Solid, IsLinked, RestOf, AgentPart, ParseAgentSessionKey;
    var name := ResolveLinkedPeerID(p.identityLinks, p.channel, PeerID(p));
    linked := name;
    ParseInvertsBuild(p, linked);
    key := BuildKey(p, name);
  }

  // ---------------------------------------------------------------- what the key says

  /** The channel's name in a key: trimmed and in lower case, `unknown` when blank. */
  ghost predicate IsChannelPart(c: string, channel: string) {
    c == if TrimSpace(ToLower(channel)) == "" then "unknown" else TrimSpace(ToLower(channel))
  }

  /** The peer's identifier, trimmed; "" without a peer. */
  function Who(p: Params): string {
    match p.peer
    case None => ""
    case Some(peer) => TrimSpace(peer.id)
  }

  /** No peer, or one without a kind or of kind `direct`. */
  predicate IsDirect(p: Params) {
    p.peer.Some? ==> TrimSpace(p.peer.value.kind) == "" || TrimSpace(p.peer.value.kind) == "direct"
  }

  /** The remainder of the key, scope by scope. A direct conversation with a known peer is told apart by that peer, in
      lower case, under its canonical name if one is linked; behind its channel and account as the scope asks. Any other
      direct conversation is the main one, whatever is linked. Groups are always told apart by channel, kind and
      peer, and never linked. */
  ghost predicate IsRest(rest: string, p: Params, linked: string, c: string) {
    var name := ToLower(if linked != "" then linked else Who(p));
    if !IsDirect(p) then
      rest == c + ":" + TrimSpace(p.peer.value.kind) + ":" + if Who(p) == "" then "unknown" else ToLower(Who(p))
    else if Who(p) == "" then rest == "main"
    else
      match p.scope
      case PerAccountChannelPeer => rest == c + ":" + NormalizeAccountID(p.accountID) + ":direct:" + name
      case PerChannelPeer => rest == c + ":direct:" + name
      case PerPeer => rest == "direct:" + name
      case _ => rest == "main"
  }

  /** What the builder writes, read back by the parser. */
  lemma KeyExactly(p: Params, linked: string) returns (c: string)
    requires linked == "" || Solid(linked)
    ensures IsChannelPart(c, p.channel)
    ensures var parsed := ParseAgentSessionKey(BuildKey(p, linked));
            && parsed.Some? && IsRest(parsed.value.rest, p, linked, c)
            && BuildKey(p, linked) == "agent:" + parsed.value.agentID + ":" + parsed.value.rest
            && (parsed.value.agentID == NormalizeAgentID(p.agentID) ||
                (parsed.value.rest == "main" && parsed.value.agentID == NormalizeAgentID(NormalizeAgentID(p.agentID))))
  {
    ParseInvertsBuild(p, linked);
    KeyIsJoined(p, linked);
    c := NormalizeChannel(p.channel);
    RestExactly(p, linked);
    MainExactly(p, linked);
    hide BuildKey, ParseAgentSessionKey, RestOf, Normalize, IsRest, IsMainKey, TrimSpace, ToLower, Solid;
  }

  lemma RestExactly(p: Params, linked: string)
    ensures IsRest(RestOf(p, linked), p, linked, NormalizeChannel(p.channel))
  {
    hide Normalize, NormalizeChannel, TrimSpace, ToLower;
    LowerIsEmpty(linked);
    LowerIsEmpty(Who(p));
  }

  lemma LowerIsEmpty(s: string)
    ensures ToLower(s) == "" <==> s == ""
  {
  }

  lemma MainExactly(p: Params, linked: string)
    ensures IsMainKey(p, linked) ==> RestOf(p, linked) == "main"
  {
    hide Normalize, NormalizeChannel, TrimSpace, ToLower;
  }

  /** One person on several platforms has one conversation: peers that are resolved to one canonical name get equal keys
      when conversations are told apart by peer alone, wherever they come from. */
  lemma LinkedPeersShareKey(p: Params, q: Params, linked: string)
    requires linked != "" && IsDirect(p) && IsDirect(q) && Who(p) != "" && Who(q) != ""
    requires p.scope == PerPeer && q.scope == PerPeer && NormalizeAgentID(p.agentID) == NormalizeAgentID(q.agentID)
    ensures BuildKey(p, linked) == BuildKey(q, linked)
  {
    hide Normalize, NormalizeChannel, TrimSpace, ToLower;
    LowerIsEmpty(linked);
  }

  /** In the main scope, which is also the default, links do not matter. */
  lemma MainScopeIgnoresLinks(p: Params, l: string, m: string)
    requires IsDirect(p) && (p.scope == Unset || p.scope == Main)
    ensures BuildKey(p, l) == BuildKey(p, m)
  {
    hide Normalize, NormalizeChannel, TrimSpace, ToLower;
  }

  // ---------------------------------------------------------------- telling conversations apart

  lemma ColonSplits(a: string, x: string, b: string, y: string)
    requires ColonFree(a) && ColonFree(b)
    ensures a + ":" + x == b + ":" + y <==> a == b && x == y
  {
    ColonAt(a, x);
    ColonAt(b, y);
  }

  lemma JoinedInjective(a: string, x: string, b: string, y: string)
    requires IsNormal(a) && Solid(x) && IsNormal(b) && Solid(y)
    ensures Joined(a, x) == Joined(b, y) <==> a == b && x == y
  {
    hide IsNormal, Solid, Joined, ParseAgentSessionKey;
    ParseInvertsJoin(a, x);
    ParseInvertsJoin(b, y);
  }

  /** For group peers with colon-free channels and kinds, equal keys mean equal agents, channels, kinds and
      lower-cased peers. */
  lemma GroupKeysInjective(p: Params, q: Params, l: string, m: string)
    requires PeerKind(p) != "direct" && PeerKind(q) != "direct"
    requires ColonFree(NormalizeChannel(p.channel)) && ColonFree(NormalizeChannel(q.channel))
    requires ColonFree(PeerKind(p)) && ColonFree(PeerKind(q))
    ensures BuildKey(p, l) == BuildKey(q, m) <==>
              && NormalizeAgentID(p.agentID) == NormalizeAgentID(q.agentID)
              && NormalizeChannel(p.channel) == NormalizeChannel(q.channel)
              && PeerKind(p) == PeerKind(q) && GroupPeer(p) == GroupPeer(q)
  {
    hide Normalize, NormalizeChannel, PeerKind, GroupPeer, ColonFree, IsNormal, Solid, Joined, IsMainKey;
    IdsAreNormal(p.agentID);
    IdsAreNormal(q.agentID);
    RestIsSolid(p, "");
    RestIsSolid(q, "");
    JoinedInjective(NormalizeAgentID(p.agentID), GroupRest(p), NormalizeAgentID(q.agentID), GroupRest(q));
    var x, y := PeerKind(p) + ":" + GroupPeer(p), PeerKind(q) + ":" + GroupPeer(q);
    assert GroupRest(p) == NormalizeChannel(p.channel) + ":" + x;
    assert GroupRest(q) == NormalizeChannel(q.channel) + ":" + y;
    ColonSplits(NormalizeChannel(p.channel), x, NormalizeChannel(q.channel), y);
    ColonSplits(PeerKind(p), GroupPeer(p), PeerKind(q), GroupPeer(q));
  }

  /** Direct conversations told apart by account, channel and peer: equal keys mean that all of them agree. */
  lemma DirectKeysInjective(p: Params, q: Params, l: string, m: string)
    requires (l == "" || Solid(l)) && (m == "" || Solid(m))
    requires PeerKind(p) == "direct" && PeerKind(q) == "direct" && DirectPeer(p, l) != "" && DirectPeer(q, m) != ""
    requires p.scope == PerAccountChannelPeer && q.scope == PerAccountChannelPeer
    requires ColonFree(NormalizeChannel(p.channel)) && ColonFree(NormalizeChannel(q.channel))
    ensures BuildKey(p, l) == BuildKey(q, m) <==>
              && NormalizeAgentID(p.agentID) == NormalizeAgentID(q.agentID)
              && NormalizeChannel(p.channel) == NormalizeChannel(q.channel)
              && NormalizeAccountID(p.accountID) == NormalizeAccountID(q.accountID)
              && DirectPeer(p, l) == DirectPeer(q, m)
  {
    AccountKey(p, l);
    AccountKey(q, m);
    hide *;
    JoinedInjective(NormalizeAgentID(p.agentID), AccountRest(p, DirectPeer(p, l)),
                    NormalizeAgentID(q.agentID), AccountRest(q, DirectPeer(q, m)));
    AccountSplits(p, q, DirectPeer(p, l), DirectPeer(q, m));
  }

  lemma AccountKey(p: Params, l: string)
    requires (l == "" || Solid(l)) && p.scope == PerAccountChannelPeer
    requires PeerKind(p) == "direct" && DirectPeer(p, l) != ""
    ensures BuildKey(p, l) == Joined(NormalizeAgentID(p.agentID), AccountRest(p, DirectPeer(p, l)))
    ensures IsNormal(NormalizeAgentID(p.agentID)) && Solid(AccountRest(p, DirectPeer(p, l)))
  {
    hide Normalize, PeerKind, PeerID, DirectPeer, Solid, Joined, AccountRest, IsNormal;
    IdsAreNormal(p.agentID);
    RestIsSolid(p, l);
  }

  lemma AccountSplits(p: Params, q: Params, x: string, y: string)
    requires ColonFree(NormalizeChannel(p.channel)) && ColonFree(NormalizeChannel(q.channel))
    ensures AccountRest(p, x) == AccountRest(q, y) <==>
              && NormalizeChannel(p.channel) == NormalizeChannel(q.channel)
              && NormalizeAccountID(p.accountID) == NormalizeAccountID(q.accountID) && x == y
  {
    hide Normalize, NormalizeChannel, ColonFree;
    var a, b := NormalizeAccountID(p.accountID), NormalizeAccountID(q.accountID);
    IdsAreNormal(p.accountID);
    IdsAreNormal(q.accountID);
    NormalIsColonFree(a);
    NormalIsColonFree(b);
    Regroup(NormalizeChannel(p.channel), a, x);
    Regroup(NormalizeChannel(q.channel), b, y);
    ColonSplits(NormalizeChannel(p.channel), a + ":" + ("direct:" + x),
                NormalizeChannel(q.channel), b + ":" + ("direct:" + y));
    ColonSplits(a, "direct:" + x, b, "direct:" + y);
    SamePrefix("direct:", x, y);
  }

  lemma Regroup(c: string, a: string, x: string)
    ensures c + ":" + a + ":direct:" + x == c + ":" + (a + ":" + ("direct:" + x))
  {
  }

  lemma SamePrefix(prefix: string, x: string, y: string)
    ensures prefix + x == prefix + y <==> x == y
  {
    assert (prefix + x)[|prefix|..] == x && (prefix + y)[|prefix|..] == y;
  }
}
