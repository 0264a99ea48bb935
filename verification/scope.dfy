// scope/scope.go: deriving a scope from a target, compiling a task contract, and the
// enforcement mode.
module Scopes {
  import opened Prelude
  import opened Model

  datatype AllowClause = AllowClause(dim: ScopeDim, gvk: GVK, namespace: string, name: string, selector: LabelSelector)

  datatype TaskContract = TaskContract(
    apiVersion: string, kind: string, name: string, namespace: string,
    allow: seq<AllowClause>, maxSeverity: string)

  datatype Provenance = FromContract | DerivedFromOwner

  datatype ScopePredicate = ScopePredicate(clauses: seq<ScopeClause>, maxSeverity: string, provenance: Provenance)

  datatype CompileError =
    | BadApiVersion | BadKind | BadSeverity
    | UnsupportedDimension(i: nat) | InvalidClause(i: nat, cause: ClauseError)

  const SEVERITIES := {"", "low", "medium", "high", "critical"}

  function Derive(target: Ref): ScopePredicate {
    ScopePredicate([OwnershipClause(target)], "", DerivedFromOwner)
  }

  // The clause an allow entry declares, every declared field kept.
  function Lowered(ac: AllowClause): ScopeClause {
    ScopeClause(ac.dim, ac.gvk, ac.namespace, ac.name, ac.selector, NO_REF)
  }

  predicate SupportedDim(dim: ScopeDim) {
    dim.NoDim? || dim.DimResource? || dim.DimSelector?
  }

  // An entry compiles when its dimension is supported and its clause validates.
  predicate Compilable(ac: AllowClause) {
    SupportedDim(ac.dim) && Validate(Lowered(ac)).None?
  }

  predicate KnownEnvelope(tc: TaskContract) {
    tc.apiVersion == "krsm.io/v1" && tc.kind == "TaskContract" && tc.maxSeverity in SEVERITIES
  }

  function CompileClause(ac: AllowClause, i: nat): Result<ScopeClause, CompileError> {
    if !SupportedDim(ac.dim) then Err(UnsupportedDimension(i))
    else match Validate(Lowered(ac))
      case Some(cause) => Err(InvalidClause(i, cause))
      case None => Ok(Lowered(ac))
  }

  // Entry i is the first that does not compile, and fails with this error.
  ghost predicate FirstFailure(allow: seq<AllowClause>, i: nat, error: CompileError) {
    && i < |allow| && CompileClause(allow[i], i) == Err(error)
    && forall j :: 0 <= j < i ==> Compilable(allow[j])
  }

  // All or nothing: it succeeds exactly when the envelope is known and every entry
  // compiles, and then holds one valid clause per entry, in order.  The first failing
  // entry is the one reported.
  method Compile(tc: TaskContract) returns (r: Result<ScopePredicate, CompileError>)
    ensures r.Ok? <==> KnownEnvelope(tc) && forall ac :: ac in tc.allow ==> Compilable(ac)
    ensures r.Ok? ==>
      && |r.value.clauses| == |tc.allow|
      && forall i :: 0 <= i < |tc.allow| ==>
           r.value.clauses[i] == Lowered(tc.allow[i]) && Validate(r.value.clauses[i]).None?
    ensures r.Ok? ==> r.value.maxSeverity == tc.maxSeverity && r.value.provenance == FromContract
    ensures r.Err? && KnownEnvelope(tc) ==> exists i :: FirstFailure(tc.allow, i, r.error)
  {
    if tc.apiVersion != "krsm.io/v1" {
      return Err(BadApiVersion);
    }
    if tc.kind != "TaskContract" {
      return Err(BadKind);
    }
    if tc.maxSeverity !in SEVERITIES {
      return Err(BadSeverity);
    }
    var clauses: seq<ScopeClause> := [];
    for i := 0 to |tc.allow|
      invariant |clauses| == i
      invariant forall j :: 0 <= j < i ==> Compilable(tc.allow[j]) && clauses[j] == Lowered(tc.allow[j])
    {
      var clause := CompileClause(tc.allow[i], i);
      if clause.Err? {
        assert !Compilable(tc.allow[i]) && FirstFailure(tc.allow, i, clause.error);
        return Err(clause.error);
      }
      clauses := clauses + [clause.value];
    }
    return Ok(ScopePredicate(clauses, tc.maxSeverity, FromContract));
  }

  // OtherMode is any mode string that is neither known mode; it behaves as enforce.
  datatype Mode = ModeAudit | ModeEnforce | OtherMode(text: string)

  function Apply(m: Mode, d: Decision): Decision {
    if !m.ModeAudit? then d
    else if d.verdict != Block || |d.escaping| == 0 then d
    else d.(verdict := Warn, reason := Audit(d.reason))
  }
}
