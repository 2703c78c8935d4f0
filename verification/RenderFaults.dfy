/** Which fault a refused request is told (internal/actions/engine.go:271-296). */
module RenderFaults {
  import opened Base
  import opened Substitution
  import opened Render
  import opened RenderOrder

  /** A parameter that is not in the template, or was substituted under the same name before. */
  predicate Unused(template: Text, params: seq<Param>, k: nat)
    requires k < |params|
  {
    !Contains(template, Placeholder(params[k].name)) || exists j :: 0 <= j < k && params[j].name == params[k].name
  }

  predicate Absent(p: Param, values: Values) {
    p.name !in values || values[p.name] == ""
  }

  predicate Sound(template: Text, params: seq<Param>, values: Values, k: nat)
    requires k < |params|
  {
    !Unused(template, params, k) && !Absent(params[k], values) && ValueOk(params[k], values[params[k].name])
  }

  /** Parameter k is the first with a fault, and the error names it. */
  predicate FaultAt(template: Text, params: seq<Param>, values: Values, k: nat, e: RenderError) {
    && k < |params| && !Sound(template, params, values, k)
    && (forall j :: 0 <= j < k ==> Sound(template, params, values, j))
    && e == if Unused(template, params, k) then NotUsed(params[k].name)
            else if Absent(params[k], values) then Missing(params[k].name)
            else BadValue(params[k].name)
  }

  /** After a clean pass the later parameters have the faults they had. */
  lemma FaultsShift(template: Text, params: seq<Param>, values: Values, j: nat)
    requires params != [] && PlainParams(params) && NoLaterPlaceholder(params, values)
    requires params[0].name in values && j < |params| - 1
    ensures var p := params[0];
            var next := ReplaceAll(template, Placeholder(p.name), ShellQuote(values[p.name]));
            && Unused(next, params[1..], j) == Unused(template, params, j + 1)
            && Sound(next, params[1..], values, j) == Sound(template, params, values, j + 1)
  {
    var p, tail := params[0], params[1..];
    assert tail[j] == params[j + 1] && Names(tail)[j] == tail[j].name;
    CleanPassKeepsOthers(template, params, values, tail[j].name);
    if i :| 0 <= i < j && tail[i].name == tail[j].name {
      assert params[i + 1].name == params[j + 1].name;
    }
    if i :| 0 <= i < j + 1 && params[i].name == params[j + 1].name {
      assert i > 0 ==> tail[i - 1].name == tail[j].name;
    }
  }

  /** Two readings of the same parameters, one position apart. */
  predicate Shifted(template: Text, params: seq<Param>, next: Text, tail: seq<Param>, values: Values, j: nat)
    requires j < |tail| && |params| == |tail| + 1
  {
    && tail[j] == params[j + 1]
    && Unused(next, tail, j) == Unused(template, params, j + 1)
    && Sound(next, tail, values, j) == Sound(template, params, values, j + 1)
  }

  lemma FaultShifts(
    template: Text, params: seq<Param>, next: Text, tail: seq<Param>, values: Values, k: nat, e: RenderError)
    requires |params| == |tail| + 1 && Sound(template, params, values, 0)
    requires forall j: nat :: j < |tail| ==> Shifted(template, params, next, tail, values, j)
    requires FaultAt(next, tail, values, k, e)
    ensures FaultAt(template, params, values, k + 1, e)
  {
    assert Shifted(template, params, next, tail, values, k);
    forall j | 0 <= j < k + 1 ensures Sound(template, params, values, j) {
      if j > 0 {
        assert Shifted(template, params, next, tail, values, j - 1);
      }
    }
  }

  /** When no value mentions a later placeholder, a refusal names the first parameter with a fault, and the fault. */
  lemma {:induction false} FirstFault(template: Text, params: seq<Param>, values: Values)
    requires PlainParams(params) && NoLaterPlaceholder(params, values)
    ensures var r := RenderFrom(template, params, values);
            r.Err? ==> exists k: nat :: FaultAt(template, params, values, k, r.error)
    decreases params
  {
    var r := RenderFrom(template, params, values);
    if r.Err? {
      var p, tail := params[0], params[1..];
      if !Sound(template, params, values, 0) {
        assert FaultAt(template, params, values, 0, r.error);
      } else {
        var next := ReplaceAll(template, Placeholder(p.name), ShellQuote(values[p.name]));
        NoLaterTail(params, values);
        FirstFault(next, tail, values);
        var k: nat :| FaultAt(next, tail, values, k, r.error);
        forall j: nat | j < |tail| ensures Shifted(template, params, next, tail, values, j) {
          FaultsShift(template, params, values, j);
        }
        FaultShifts(template, params, next, tail, values, k, r.error);
      }
    }
  }
}
