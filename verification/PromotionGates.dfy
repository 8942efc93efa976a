/** The release-gate registry and the bindings that promotion evidence is admitted under. */
module PromotionGates {
  import opened Common
  import opened Promotion

  /** A decoded release gate. */
  datatype Gate = Gate(id: string, blocks: bool)

  /** The gates the code registers, the ones the matrix requires, and its gate inventory. */
  datatype Registry = Registry(registered: seq<string>, required: seq<string>, gates: seq<Gate>)

  /** What is established around the accounting. The first seven are outcomes of single-field
      checks and of foreign tools: canonical form, keys and content digest; final ref, version
      and upgrade exemption; candidate ref and commit; source diff; audit evidence package;
      claims unchanged since the candidate; final-admission policy. */
  datatype Bindings = Bindings(
    wellFormed: bool,
    finalRelease: bool,
    candidateRelease: bool,
    sourceDiff: bool,
    auditEvidence: bool,
    claimsUnchanged: bool,
    admissionPolicy: bool,
    finalAudit: Payload,
    registry: Registry)

  function Blocking(gates: seq<Gate>): set<string> { set g | g in gates && g.blocks :: g.id }

  ghost predicate InventoryOk(gates: seq<Gate>) {
    && (forall g :: g in gates ==> g.id != "")
    && (forall i, j :: 0 <= i < j < |gates| ==> gates[i].id != gates[j].id)
  }

  /** The required gates are the registered ones, and exactly those block the release. */
  ghost predicate RegistryOk(r: Registry) {
    && r.required == r.registered && NoRepeats(r.required)
    && InventoryOk(r.gates) && Blocking(r.gates) == Elements(r.registered)
  }

  ghost predicate BindingsOk(b: Bindings, auditClaim: Payload) {
    && b.wellFormed && b.finalRelease && b.candidateRelease && b.sourceDiff
    && b.auditEvidence && b.claimsUnchanged && b.admissionPolicy
    && SamePayload(b.finalAudit, auditClaim)
    && RegistryOk(b.registry)
  }

  /** The dictionary of gates by id. */
  ghost predicate Filed(gates: seq<Gate>, table: map<string, bool>) {
    && (forall g :: g in gates ==> g.id in table && table[g.id] == g.blocks)
    && (forall id :: id in table ==> exists g :: g in gates && g.id == id)
  }

  lemma FileStep(gates: seq<Gate>, g: Gate, table: map<string, bool>)
    requires InventoryOk(gates) && Filed(gates, table) && g.id != "" && g.id !in table
    ensures InventoryOk(gates + [g]) && Filed(gates + [g], table[g.id := g.blocks])
  {
    var next := gates + [g];
    assert forall x :: x in next <==> x in gates || x == g;
    assert g in next;
    forall i, j | 0 <= i < j < |next|
      ensures next[i].id != next[j].id
    {
      if j == |gates| {
        assert next[i] in gates;
      }
    }
  }

  lemma FileBlocked(gates: seq<Gate>, i: nat, table: map<string, bool>)
    requires i < |gates| && Filed(gates[..i], table) && (gates[i].id == "" || gates[i].id in table)
    ensures !InventoryOk(gates)
  {
    assert gates[i] in gates;
    if gates[i].id in table {
      var g :| g in gates[..i] && g.id == gates[i].id;
      var j :| 0 <= j < i && gates[..i][j] == g;
      assert gates[j].id == gates[i].id;
    }
  }

  lemma BlockingFiled(gates: seq<Gate>, table: map<string, bool>)
    requires Filed(gates, table)
    ensures (set id | id in table && table[id]) == Blocking(gates)
  {
    forall id
      ensures id in (set x | x in table && table[x]) <==> id in Blocking(gates)
    {
      if id in table && table[id] {
        var g :| g in gates && g.id == id;
        assert g.blocks;
      }
    }
  }

  /** The registry check: every registered gate blocks, and nothing else does. */
  method CheckRegistry(r: Registry) returns (ok: bool)
    ensures ok <==> RegistryOk(r)
  {
    CountsDistinct(r.required);
    if r.required != r.registered || |r.required| != |Elements(r.required)| {
      return false;
    }
    var table: map<string, bool> := map[];
    for i := 0 to |r.gates|
      invariant InventoryOk(r.gates[..i]) && Filed(r.gates[..i], table)
    {
      var g := r.gates[i];
      if g.id == "" || g.id in table {
        FileBlocked(r.gates, i, table);
        return false;
      }
      FileStep(r.gates[..i], g, table);
      assert r.gates[..i + 1] == r.gates[..i] + [g];
      table := table[g.id := g.blocks];
    }
    assert r.gates[..|r.gates|] == r.gates;
    BlockingFiled(r.gates, table);
    var blocking := set id | id in table && table[id];
    assert (forall id :: id in r.registered ==> id in blocking) <==> Elements(r.registered) <= blocking;
    ok := (forall id :: id in r.registered ==> id in table && table[id]) && blocking <= Elements(r.registered);
  }

  /** The audit closure must not have changed since the candidate. */
  method CheckBindings(b: Bindings, auditClaim: Payload) returns (ok: bool)
    ensures ok <==> BindingsOk(b, auditClaim)
  {
    if !(b.wellFormed && b.finalRelease && b.candidateRelease && b.sourceDiff) {
      return false;
    }
    if !SamePayload(b.finalAudit, auditClaim) {
      return false;
    }
    if !(b.auditEvidence && b.claimsUnchanged && b.admissionPolicy) {
      return false;
    }
    ok := CheckRegistry(b.registry);
  }
}
