/** Client/server schema compatibility, and what a history of revisions keeps of it. */
module Handshake {
  import opened Text
  import opened Schemas
  import Validation
  import Evolution
  import opened Lint
  import opened LintRules

  datatype Reason = Exact | RevisionCompatibleHashMismatch | SchemaIdMismatch | ClientTooOld | ServerTooOld

  datatype Compatibility = Compatibility(compatible: bool, reason: Reason, clientRevision: int, serverRevision: int)

  function CompareSchemaCompatibility(client: Schema, server: Schema): Compatibility {
    var cr, sr := client.schemaRevision, server.schemaRevision;
    if client.schemaId != server.schemaId then Compatibility(false, SchemaIdMismatch, cr, sr)
    else if cr < server.minimumClientRevision then Compatibility(false, ClientTooOld, cr, sr)
    else if sr < client.minimumServerRevision then Compatibility(false, ServerTooOld, cr, sr)
    else if client.hash != server.hash then Compatibility(true, RevisionCompatibleHashMismatch, cr, sr)
    else Compatibility(true, Exact, cr, sr)
  }

  predicate Compatible(client: Schema, server: Schema) { CompareSchemaCompatibility(client, server).compatible }

  /** Which of the two sides has to move, and when neither has to. */
  lemma ReasonMeaning(client: Schema, server: Schema)
    ensures var r := CompareSchemaCompatibility(client, server);
            && (r.compatible <==> r.reason in {Exact, RevisionCompatibleHashMismatch})
            && (r.reason == Exact ==> client.hash == server.hash)
            && (r.reason == RevisionCompatibleHashMismatch ==> client.hash != server.hash)
            && (r.reason == SchemaIdMismatch ==> forall n, m :: !Compatible(client.(schemaRevision := n, minimumServerRevision := m), server))
            && (r.reason == ClientTooOld ==> forall n :: !Compatible(client, server.(schemaRevision := n)))
            && (r.reason == ServerTooOld ==> Compatible(client, server.(schemaRevision := client.minimumServerRevision)))
  {
  }

  /** What each reason says about the two schemas. */
  predicate Applies(reason: Reason, client: Schema, server: Schema) {
    match reason
    case SchemaIdMismatch => client.schemaId != server.schemaId
    case ClientTooOld => client.schemaRevision < server.minimumClientRevision
    case ServerTooOld => server.schemaRevision < client.minimumServerRevision
    case RevisionCompatibleHashMismatch => client.hash != server.hash
    case Exact => client.hash == server.hash
  }

  function Priority(): seq<Reason> { [SchemaIdMismatch, ClientTooOld, ServerTooOld, RevisionCompatibleHashMismatch, Exact] }

  /** The reason is the first that applies, only the first three refuse, and both revisions are reported as they are. */
  lemma FirstReasonWins(client: Schema, server: Schema) returns (i: nat)
    ensures var r := CompareSchemaCompatibility(client, server);
            && i < |Priority()| && r.reason == Priority()[i] && Applies(r.reason, client, server)
            && (forall j | 0 <= j < i :: !Applies(Priority()[j], client, server))
            && (r.compatible <==> i >= 3)
            && r.clientRevision == client.schemaRevision && r.serverRevision == server.schemaRevision
  {
    i := match CompareSchemaCompatibility(client, server).reason
      case SchemaIdMismatch => 0
      case ClientTooOld => 1
      case ServerTooOld => 2
      case RevisionCompatibleHashMismatch => 3
      case Exact => 4;
  }

  /** A schema accepts clients built from it exactly when it meets its own minimums. */
  lemma SelfCompatibleExactly(s: Schema)
    ensures Compatible(s, s) <==> s.minimumClientRevision <= s.schemaRevision && s.minimumServerRevision <= s.schemaRevision
  {
  }

  /** Validation does not ask for that: every valid schema has a valid sibling that rejects itself. */
  lemma ValidSchemasMayRejectThemselves(lower: string -> string, s: Schema)
    requires WellFormed(lower, s)
    ensures var t := s.(minimumClientRevision := s.schemaRevision + 1);
            Validation.SchemaVerdict(lower, t).None? && !Compatible(t, t)
  {
    var t := s.(minimumClientRevision := s.schemaRevision + 1);
    assert Refs(t) == Refs(s);
    assert WellFormedMembers(lower, t) && WellFormedTypeSets(lower, t);
    Validation.ValidationExact(lower, t);
  }

  lemma CleanIdentity(curr: Schema, prev: Schema)
    requires CountBreaking(LintFindings(curr, prev)) == 0
    ensures prev.schemaId == curr.schemaId && prev.schemaRevision <= curr.schemaRevision
  {
    CountZeroIsClean(LintFindings(curr, prev));
    CleanConcat(IdentityFindings(curr, prev), TypeSetsFindings(curr, prev) + MembersFindings(curr, prev));
    IdentityExact(curr, prev);
  }

  ghost predicate Raises(fs: seq<Finding>) { exists i | 0 <= i < |fs| :: fs[i].rule == "schema.minimumClientRevision.raised" }

  lemma RaiseIsReported(curr: Schema, prev: Schema)
    requires curr.minimumClientRevision > prev.minimumClientRevision
    ensures Raises(LintFindings(curr, prev))
  {
    var identity := IdentityFindings(curr, prev);
    var raised := Finding(Warn, "schema.minimumClientRevision.raised", "minimumClientRevision");
    assert identity[|identity| - 1] == raised;
    assert LintFindings(curr, prev)[|identity| - 1] == raised;
  }

  /** Every client accepted before is accepted after exactly when the minimum was not raised. */
  lemma StepKeepsClients(curr: Schema, prev: Schema)
    requires prev.schemaId == curr.schemaId && prev.schemaRevision <= curr.schemaRevision
    ensures (forall client :: Compatible(client, prev) ==> Compatible(client, curr)) <==>
            curr.minimumClientRevision <= prev.minimumClientRevision
  {
    var oldest := prev.(schemaRevision := prev.minimumClientRevision, minimumServerRevision := prev.schemaRevision);
    assert Compatible(oldest, prev);
    assert Compatible(oldest, curr) <==> curr.minimumClientRevision <= prev.minimumClientRevision;
  }

  /** No breaking finding, and no warning that the minimum client revision was raised. */
  ghost predicate QuietStep(prev: Schema, curr: Schema) {
    CountBreaking(LintFindings(curr, prev)) == 0 && !Raises(LintFindings(curr, prev))
  }

  lemma QuietStepKeepsClient(prev: Schema, curr: Schema, client: Schema)
    requires QuietStep(prev, curr) && Compatible(client, prev)
    ensures Compatible(client, curr)
  {
    CleanIdentity(curr, prev);
    if curr.minimumClientRevision > prev.minimumClientRevision {
      RaiseIsReported(curr, prev);
    }
  }

  function Accepts(client: Schema): Schema -> bool { server => Compatible(client, server) }

  ghost predicate QuietHistory(h: seq<Schema>) { forall k | 0 < k < |h| :: QuietStep(h[k - 1], h[k]) }

  /** Along quiet revisions, a client accepted by one server is accepted by every later one. */
  lemma HistoryKeepsClients(h: seq<Schema>, i: nat, j: nat, client: Schema)
    requires QuietHistory(h) && i <= j < |h| && Compatible(client, h[i])
    ensures Compatible(client, h[j])
  {
    var accepted := Accepts(client);
    forall k | i < k <= j && accepted(h[k - 1]) ensures accepted(h[k]) {
      QuietStepKeepsClient(h[k - 1], h[k], client);
    }
    Evolution.ChainKeeps(h, accepted, b => b, i, j);
  }
}
