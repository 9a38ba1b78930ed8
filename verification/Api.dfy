/** The MCPServer resource of api/v1alpha1, as stored by the Kubernetes API server. */
module Api {

  import opened Text

  datatype Key = Key(namespace: string, name: string)

  datatype ServiceAccountReference = ServiceAccountReference(namespace: string, name: string)

  /** rest stands for the fields the controller and the gateway do not read: tools, authType, authSecretRef. */
  datatype ServerSpec = ServerSpec(image: string, port: int, allowed: seq<ServiceAccountReference>, rest: string)

  datatype ConditionStatus = IsTrue | IsFalse | Unknown

  datatype Condition = Condition(
    kind: string, status: ConditionStatus, observedGeneration: int, reason: string, message: string, transition: real)

  datatype ServerStatus = ServerStatus(phase: string, observedGeneration: int, conditions: seq<Condition>)

  /** version is the resourceVersion; deleting means that a deletion timestamp is set. */
  datatype Server = Server(
    uid: nat, version: nat, generation: int, deleting: bool, spec: ServerSpec, status: ServerStatus)
  {
    predicate IsReady() {
      && !deleting
      && status.observedGeneration == generation
      && var condition := FindCondition(status.conditions, READY);
         condition.Some? && condition.value.status == IsTrue && condition.value.observedGeneration == generation
    }
  }

  const READY := "Ready"

  /** The first condition of the given type. */
  function FindCondition(conditions: seq<Condition>, kind: string): Option<Condition> {
    if conditions == [] then None
    else if conditions[0].kind == kind then Some(conditions[0])
    else FindCondition(conditions[1..], kind)
  }

  /** Position of the first Ready condition. */
  ghost predicate FirstReady(conditions: seq<Condition>, i: nat) {
    i < |conditions| && conditions[i].kind == "Ready" && forall j :: 0 <= j < i ==> conditions[j].kind != "Ready"
  }

  lemma {:induction false} FindConditionAt(conditions: seq<Condition>)
    ensures forall i: nat :: FirstReady(conditions, i) ==> FindCondition(conditions, READY) == Some(conditions[i])
    ensures FindCondition(conditions, READY).Some? ==> exists i: nat :: FirstReady(conditions, i)
  {
    if conditions != [] {
      var rest := conditions[1..];
      if conditions[0].kind == READY {
        assert FirstReady(conditions, 0);
      } else {
        FindConditionAt(rest);
        assert forall i: nat :: FirstReady(conditions, i) ==> i > 0 && rest[i - 1] == conditions[i] && FirstReady(rest, i - 1);
        assert forall i: nat :: FirstReady(rest, i) ==> FirstReady(conditions, i + 1);
      }
    }
  }

  /** Ready is for the current generation only: a status or a condition that was written for an earlier one, and an
      MCPServer that is being deleted, are not ready; and only the first Ready condition counts. */
  lemma {:induction false} ReadyExact(m: Server)
    ensures m.IsReady() <==>
      && !m.deleting && m.status.observedGeneration == m.generation
      && exists i: nat :: FirstReady(m.status.conditions, i)
           && m.status.conditions[i].status.IsTrue? && m.status.conditions[i].observedGeneration == m.generation
  {
    FindConditionAt(m.status.conditions);
  }
}
