/** The rotation of tenant keys of `bets/b-mcp-gateway/src/policy.js`, with the grace time of the old key. */
module TenantKeys {
  import opened Wrappers

  /** A tenant as far as its keys go. The empty text is no key; `expiresAt` is `None` when it does not read
      as a time. */
  datatype Tenant = Tenant(id: string, apiKey: string, previousApiKey: string, expiresAt: Option<int>)

  predicate PreviousValid(t: Tenant, now: int) {
    t.previousApiKey != "" && t.expiresAt.Some? && now < t.expiresAt.value
  }

  predicate Opens(t: Tenant, key: string, now: int) {
    t.apiKey == key || (t.previousApiKey == key && PreviousValid(t, now))
  }

  /** The position of the first tenant that the key opens. */
  function Find(tenants: seq<Tenant>, key: string, now: int): Option<nat> {
    if key == "" || tenants == [] then None
    else
      var earlier := Find(tenants[..|tenants| - 1], key, now);
      if earlier.Some? then earlier
      else if Opens(tenants[|tenants| - 1], key, now) then Some(|tenants| - 1)
      else None
  }

  function FindById(tenants: seq<Tenant>, id: string): Option<nat> {
    if tenants == [] then None
    else
      var earlier := FindById(tenants[..|tenants| - 1], id);
      if earlier.Some? then earlier
      else if tenants[|tenants| - 1].id == id then Some(|tenants| - 1)
      else None
  }

  /** The keys that the generator yields when it is asked up to three times. */
  datatype Draws = Draws(first: string, second: string, third: string)

  function Token(current: string, draws: Draws): string {
    var second := if draws.first == "" || draws.first == current then draws.second else draws.first;
    if second == current then draws.third else second
  }

  function Rotated(t: Tenant, draws: Draws, graceSec: nat, now: int): Tenant {
    var token := Token(t.apiKey, draws);
    if t.apiKey != "" && graceSec > 0 then Tenant(t.id, token, t.apiKey, Some(now + graceSec * 1000))
    else Tenant(t.id, token, "", None)
  }

  function RotateStep(tenants: seq<Tenant>, id: string, draws: Draws, graceSec: nat, now: int)
    : (seq<Tenant>, Option<string>)
  {
    if id == "" then (tenants, None)
    else
      match FindById(tenants, id)
      case None => (tenants, None)
      case Some(p) =>
        FindByIdInRange(tenants, id);
        (tenants[p := Rotated(tenants[p], draws, graceSec, now)], Some(Token(tenants[p].apiKey, draws)))
  }

  lemma {:induction false} FindByIdInRange(tenants: seq<Tenant>, id: string)
    ensures var p := FindById(tenants, id);
            if p.Some? then
              p.value < |tenants| && tenants[p.value].id == id && forall q :: 0 <= q < p.value ==> tenants[q].id != id
            else forall q :: 0 <= q < |tenants| ==> tenants[q].id != id
  {
    if tenants != [] {
      FindByIdInRange(tenants[..|tenants| - 1], id);
    }
  }

  // ----- The imperative form -----

  class TenantRecord {
    const id: string
    var apiKey: string
    var previousApiKey: string
    var expiresAt: Option<int>

    function Model(): Tenant
      reads this
    {
      Tenant(id, apiKey, previousApiKey, expiresAt)
    }

    constructor (t: Tenant)
      ensures Model() == t
    {
      id, apiKey, previousApiKey, expiresAt := t.id, t.apiKey, t.previousApiKey, t.expiresAt;
    }

    method Replace(draws: Draws, graceSec: nat, now: int) returns (token: string)
      modifies this
      ensures Model() == Rotated(old(Model()), draws, graceSec, now) && token == Token(old(apiKey), draws)
    {
      var current := apiKey;
      token := draws.first;
      if token == "" || token == current {
        token := draws.second;
      }
      if token == current {
        token := draws.third;
      }
      apiKey := token;
      if current != "" && graceSec > 0 {
        previousApiKey := current;
        expiresAt := Some(now + graceSec * 1000);
      } else {
        previousApiKey := "";
        expiresAt := None;
      }
    }
  }

  ghost function Models(records: seq<TenantRecord>): (tenants: seq<Tenant>)
    reads records
    ensures |tenants| == |records| && forall k :: 0 <= k < |records| ==> tenants[k] == records[k].Model()
  {
    if records == [] then [] else Models(records[..|records| - 1]) + [records[|records| - 1].Model()]
  }

  ghost predicate DistinctRecords(records: seq<TenantRecord>) {
    forall i, j :: 0 <= i < j < |records| ==> records[i] != records[j]
  }

  /** `rotateTenantApiKey`: the tenant is changed in place in the policy's list. */
  method RotateTenantApiKey(records: seq<TenantRecord>, id: string, draws: Draws, graceSec: nat, now: int)
    returns (token: Option<string>)
    requires DistinctRecords(records)
    modifies records
    ensures (Models(records), token) == RotateStep(old(Models(records)), id, draws, graceSec, now)
  {
    if id == "" {
      return None;
    }
    ghost var tenants := Models(records);
    var p := 0;
    while p < |records| && records[p].id != id
      invariant 0 <= p <= |records| && Models(records) == tenants
      invariant forall q :: 0 <= q < p ==> tenants[q].id != id
    {
      p := p + 1;
    }
    FindByIdInRange(tenants, id);
    if p == |records| {
      return None;
    }
    assert FindById(tenants, id) == Some(p);
    var issued := records[p].Replace(draws, graceSec, now);
    assert Models(records) == tenants[p := Rotated(tenants[p], draws, graceSec, now)];
    token := Some(issued);
  }

  /** `findTenantByApiKey`. */
  method FindTenantByApiKey(records: seq<TenantRecord>, key: string, now: int) returns (found: Option<nat>)
    ensures found == Find(Models(records), key, now)
  {
    found := None;
    if key == "" {
      return;
    }
    ghost var tenants := Models(records);
    for p := 0 to |records|
      invariant Find(tenants[..p], key, now) == None
    {
      assert tenants[..p + 1][..p] == tenants[..p];
      if Opens(records[p].Model(), key, now) {
        FoundStays(tenants, key, now, p);
        return Some(p);
      }
    }
    assert tenants[..|records|] == tenants;
  }

  lemma {:induction false} FoundStays(tenants: seq<Tenant>, key: string, now: int, p: nat)
    requires p < |tenants| && Find(tenants[..p + 1], key, now) == Some(p)
    ensures Find(tenants, key, now) == Some(p)
  {
    if p + 1 < |tenants| {
      var before := tenants[..|tenants| - 1];
      assert before[..p + 1] == tenants[..p + 1];
      FoundStays(before, key, now, p);
    } else {
      assert tenants[..p + 1] == tenants;
    }
  }
}
