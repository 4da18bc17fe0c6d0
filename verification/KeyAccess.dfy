/** What a personal key may be given: its scopes and channels, normalised and then
    checked against the policy and the user's own permissions. */
module KeyAccess {
  import opened Wrappers
  import opened Text

  /** The permissions that can be delegated to a key. */
  const ALLOWED_SCOPES: seq<string> := [
    "customer:read", "customer:write", "customer:delete", "intelligence:read", "intelligence:write", "contact:read",
    "contact:write", "lead:read", "lead:write", "opportunity:read", "opportunity:write", "activity:read",
    "activity:write", "product:read", "product:write", "quotation:read", "quotation:write", "contract:read",
    "contract:write", "sales:read", "sales:write", "target:read", "target:write", "forecast:read", "forecast:write",
    "notification:read", "notification:write", "report:read", "voice:read", "voice:write", "approval:request",
    "approval:approve", "mcp:use"]

  const REST := "REST"
  const MCP := "MCP"
  const MCP_USE := "mcp:use"
  const ADMIN_ALL := "admin:*"

  /** The settings of the keys namespace, and the scopes that may be delegated. */
  datatype Policy = Policy(
    maxPerUser: int, restEnabled: bool, mcpEnabled: bool, defaultLifetime: int, maxLifetime: int, rotationGrace: int,
    allowedScopes: seq<string>)

  /** keyScopes is None for a session and the key's scopes for a keyed request. */
  datatype Principal = Principal(userId: string, isBootstrap: bool, permissions: set<string>, keyScopes: Option<seq<string>>)

  predicate KeyAllows(p: Principal, permission: string) {
    p.keyScopes.None? || permission in p.keyScopes.value || ADMIN_ALL in p.keyScopes.value
  }

  predicate Has(p: Principal, permission: string) {
    (p.isBootstrap || ADMIN_ALL in p.permissions || permission in p.permissions) && KeyAllows(p, permission)
  }

  datatype AccessError =
    | BadChannels | RestDisabled | McpDisabled | NoScope | ScopeNotAllowed(scope: string) | ScopeExceedsUser(scope: string)
    | McpNeedsScope | ScopeNeedsMcp

  /** How a value is cleaned: a scope is trimmed, a channel also put in capitals. */
  datatype Cleaning = ForScopes | ForChannels(upper: char -> char)

  function Clean(how: Cleaning, value: string): string {
    match how
    case ForScopes => TrimSpace(value)
    case ForChannels(upper) => ToLower(TrimSpace(value), upper)
  }

  /** The non-blank values as they read after cleaning, each at its first appearance. */
  function Normalized(values: seq<string>, how: Cleaning): seq<string> {
    if values == [] then []
    else
      var n := |values| - 1;
      var before, value := Normalized(values[..n], how), Clean(how, values[n]);
      if value == "" || value in before then before else before + [value]
  }

  method Normalize(values: seq<string>, how: Cleaning) returns (out: seq<string>)
    ensures out == Normalized(values, how)
  {
    out := [];
    var seen: set<string> := {};
    for i := 0 to |values|
      invariant out == Normalized(values[..i], how)
      invariant forall value :: value in seen <==> value in out
    {
      assert values[..i + 1][..i] == values[..i];
      var value := Clean(how, values[i]);
      if value != "" && value !in seen {
        seen := seen + {value};
        out := out + [value];
      }
    }
    assert values[..|values|] == values;
  }

  ghost predicate Distinct(values: seq<string>) {
    forall i, j | 0 <= i < j < |values| :: values[i] != values[j]
  }

  /** Normalising keeps exactly the non-blank cleaned values, once each. */
  lemma {:induction false} NormalizedHolds(values: seq<string>, how: Cleaning)
    ensures Distinct(Normalized(values, how))
    ensures forall value :: value in Normalized(values, how) <==> value != "" && exists v :: v in values && Clean(how, v) == value
  {
    if values != [] {
      var n := |values| - 1;
      NormalizedHolds(values[..n], how);
      assert values == values[..n] + [values[n]];
      assert forall v :: v in values <==> v in values[..n] || v == values[n];
    }
  }

  /** A list that is already clean, free of blanks and of repetitions stays as it is. */
  lemma {:induction false} NormalizedKeeps(values: seq<string>, how: Cleaning)
    requires Distinct(values) && forall v | v in values :: v != "" && Clean(how, v) == v
    ensures Normalized(values, how) == values
  {
    if values != [] {
      var n := |values| - 1;
      assert values == values[..n] + [values[n]];
      assert forall v | v in values[..n] :: v in values;
      forall i, j | 0 <= i < j < n
        ensures values[..n][i] != values[..n][j]
      {
        assert values[i] != values[j];
      }
      NormalizedKeeps(values[..n], how);
    }
  }

  // ----- The checks, in the order the source makes them -----

  predicate ValidChannels(channels: seq<string>) {
    channels != [] && forall i | 0 <= i < |channels| :: channels[i] == REST || channels[i] == MCP
  }

  method CheckAccess(policy: Policy, p: Principal, scopes: seq<string>, channels: seq<string>)
        returns (error: Option<AccessError>)
    ensures error == AccessErrorOf(policy, p, scopes, channels)
  {
    if !ValidChannels(channels) {
      return Some(BadChannels);
    }
    for i := 0 to |channels|
      invariant FirstDisabled(policy, channels) == FirstDisabled(policy, channels[i..])
    {
      assert channels[i..][1..] == channels[i + 1..];
      if channels[i] == REST && !policy.restEnabled {
        return Some(RestDisabled);
      }
      if channels[i] == MCP && !policy.mcpEnabled {
        return Some(McpDisabled);
      }
    }
    if scopes == [] {
      return Some(NoScope);
    }
    for i := 0 to |scopes|
      invariant FirstRefused(policy, p, scopes) == FirstRefused(policy, p, scopes[i..])
    {
      assert scopes[i..][1..] == scopes[i + 1..];
      if scopes[i] !in policy.allowedScopes {
        return Some(ScopeNotAllowed(scopes[i]));
      }
      if !p.isBootstrap && !Has(p, scopes[i]) {
        return Some(ScopeExceedsUser(scopes[i]));
      }
    }
    if MCP in channels && MCP_USE !in scopes {
      return Some(McpNeedsScope);
    }
    if MCP_USE in scopes && MCP !in channels {
      return Some(ScopeNeedsMcp);
    }
    error := None;
  }

  function FirstDisabled(policy: Policy, channels: seq<string>): Option<AccessError> {
    if channels == [] then None
    else if channels[0] == REST && !policy.restEnabled then Some(RestDisabled)
    else if channels[0] == MCP && !policy.mcpEnabled then Some(McpDisabled)
    else FirstDisabled(policy, channels[1..])
  }

  function FirstRefused(policy: Policy, p: Principal, scopes: seq<string>): Option<AccessError> {
    if scopes == [] then None
    else if scopes[0] !in policy.allowedScopes then Some(ScopeNotAllowed(scopes[0]))
    else if !p.isBootstrap && !Has(p, scopes[0]) then Some(ScopeExceedsUser(scopes[0]))
    else FirstRefused(policy, p, scopes[1..])
  }

  function AccessErrorOf(policy: Policy, p: Principal, scopes: seq<string>,
        channels: seq<string>): Option<AccessError> {
    if !ValidChannels(channels) then Some(BadChannels)
    else if FirstDisabled(policy, channels).Some? then FirstDisabled(policy, channels)
    else if scopes == [] then Some(NoScope)
    else if FirstRefused(policy, p, scopes).Some? then FirstRefused(policy, p, scopes)
    else if MCP in channels && MCP_USE !in scopes then Some(McpNeedsScope)
    else if MCP_USE in scopes && MCP !in channels then Some(ScopeNeedsMcp)
    else None
  }

  /** What every stored key satisfies. */
  ghost predicate WellFormed(allowed: seq<string>, scopes: seq<string>, channels: seq<string>) {
    && scopes != [] && (forall s | s in scopes :: s in allowed)
    && channels != [] && (forall c | c in channels :: c == REST || c == MCP)
    && (MCP in channels <==> MCP_USE in scopes)
  }

  lemma {:induction false} NothingDisabledIff(policy: Policy, channels: seq<string>)
    ensures FirstDisabled(policy, channels) == None
       <==> (REST in channels ==> policy.restEnabled) && (MCP in channels ==> policy.mcpEnabled)
  {
    assert REST[0] != MCP[0];
    if channels != [] {
      NothingDisabledIff(policy, channels[1..]);
      assert channels == [channels[0]] + channels[1..];
    }
  }

  lemma {:induction false} NothingRefusedIff(policy: Policy, p: Principal, scopes: seq<string>)
    ensures FirstRefused(policy, p, scopes) == None
       <==> forall s | s in scopes :: s in policy.allowedScopes && (p.isBootstrap || Has(p, s))
  {
    if scopes != [] {
      NothingRefusedIff(policy, p, scopes[1..]);
      assert scopes == [scopes[0]] + scopes[1..];
    }
  }

  /** Access is granted exactly when it is well formed, its channels are switched on
      and the user holds every scope. */
  lemma GrantedIff(policy: Policy, p: Principal, scopes: seq<string>, channels: seq<string>)
    ensures AccessErrorOf(policy, p, scopes, channels) == None
       <==> && WellFormed(policy.allowedScopes, scopes, channels)
            && (REST in channels ==> policy.restEnabled) && (MCP in channels ==> policy.mcpEnabled)
            && (forall s | s in scopes :: p.isBootstrap || Has(p, s))
  {
    NothingDisabledIff(policy, channels);
    NothingRefusedIff(policy, p, scopes);
    if forall c | c in channels :: c == REST || c == MCP {
      assert forall i | 0 <= i < |channels| :: channels[i] in channels;
    }
  }

  lemma {:induction false} DisabledIsTrue(policy: Policy, channels: seq<string>)
    ensures FirstDisabled(policy, channels) == Some(RestDisabled) ==> REST in channels && !policy.restEnabled
    ensures FirstDisabled(policy, channels) == Some(McpDisabled) ==> MCP in channels && !policy.mcpEnabled
    ensures FirstDisabled(policy, channels).Some? ==>
              FirstDisabled(policy, channels).value.RestDisabled? || FirstDisabled(policy, channels).value.McpDisabled?
  {
    if channels != [] {
      DisabledIsTrue(policy, channels[1..]);
      assert channels == [channels[0]] + channels[1..];
    }
  }

  lemma {:induction false} RefusedIsTrue(policy: Policy, p: Principal, scopes: seq<string>)
    ensures var e := FirstRefused(policy, p, scopes);
            e.Some? ==>
              || (e.value.ScopeNotAllowed? && e.value.scope in scopes && e.value.scope !in policy.allowedScopes)
              || (e.value.ScopeExceedsUser? && e.value.scope in scopes && !p.isBootstrap && !Has(p, e.value.scope))
  {
    if scopes != [] {
      RefusedIsTrue(policy, p, scopes[1..]);
      assert scopes == [scopes[0]] + scopes[1..];
    }
  }

  /** The error answered is true of what was asked for. */
  lemma AccessErrorIsTrue(policy: Policy, p: Principal, scopes: seq<string>, channels: seq<string>)
    requires AccessErrorOf(policy, p, scopes, channels).Some?
    ensures match AccessErrorOf(policy, p, scopes, channels).value
            case BadChannels => channels == [] || exists c :: c in channels && c != REST && c != MCP
            case RestDisabled => REST in channels && !policy.restEnabled
            case McpDisabled => MCP in channels && !policy.mcpEnabled
            case NoScope => scopes == []
            case ScopeNotAllowed(s) => s in scopes && s !in policy.allowedScopes
            case ScopeExceedsUser(s) => s in scopes && !p.isBootstrap && !Has(p, s)
            case McpNeedsScope => MCP in channels && MCP_USE !in scopes
            case ScopeNeedsMcp => MCP_USE in scopes && MCP !in channels
  {
    DisabledIsTrue(policy, channels);
    RefusedIsTrue(policy, p, scopes);
    if !ValidChannels(channels) && channels != [] {
      var i :| 0 <= i < |channels| && channels[i] != REST && channels[i] != MCP;
      assert channels[i] in channels;
    }
  }

  /** A keyed request can do nothing its user could not, and with well-formed scopes
      nothing beyond the scopes it lists. */
  lemma KeyNarrowsUser(p: Principal, allowed: seq<string>, scopes: seq<string>, channels: seq<string>,
        permission: string)
    requires p.keyScopes == None && ADMIN_ALL !in allowed && WellFormed(allowed, scopes, channels)
    ensures Has(p.(keyScopes := Some(scopes)), permission) <==> Has(p, permission) && permission in scopes
    ensures Has(p, permission) <==> p.isBootstrap || "admin:*" in p.permissions || permission in p.permissions
  {
  }

  lemma NoAdminScope()
    ensures ADMIN_ALL !in ALLOWED_SCOPES
  {
    assert ADMIN_ALL[1] == 'd';
    assert forall i | 0 <= i < |ALLOWED_SCOPES| :: |ALLOWED_SCOPES[i]| > 1 && ALLOWED_SCOPES[i][1] != 'd';
  }
}
