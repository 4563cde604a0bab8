/**
 * Exceptions, as the pipeline's `try`/`catch` blocks see them: a computation
 * either returns a value or throws a fault whose `message` the catching code reads.
 */
module Runtime {
  import opened JsText

  datatype Fault =
    | NullMemberRead(key: string)           // `v[key]` or `v.key` evaluated with v === null
    | NotAFunction(callee: string)          // a call of a method the receiver does not have
    | InvalidUrl                            // `new URL(s)` rejected `s`
    | ValidationFailed(issues: seq<string>) // the schema's `parse` rejected a draft; one issue per field
    | Network(text: string)                 // an HTTP request rejected, with the client's message
    | Database(text: string)                // a persistence call rejected, with the driver's message

  /** The `message` property of the thrown error. */
  function Message(f: Fault): string {
    match f
    case NullMemberRead(key) => "Cannot read properties of null (reading '" + key + "')"
    case NotAFunction(callee) => callee + " is not a function"
    case InvalidUrl => "Invalid URL"
    case ValidationFailed(issues) => "Invalid recipe data: " + Join(issues, ", ")
    case Network(text) => text
    case Database(text) => text
  }

  /** Faults raised by the runtime itself always carry a message. */
  lemma RuntimeMessagesNonEmpty(f: Fault)
    requires !f.Network? && !f.Database?
    ensures Message(f) != ""
  {
  }

  /** The result of evaluating something that may throw. */
  datatype Outcome<+T> = Returned(value: T) | Threw(fault: Fault) {

    predicate IsFailure() {
      Threw?
    }

    function PropagateFailure<U>(): Outcome<U>
      requires Threw?
    {
      Threw(fault)
    }

    function Extract(): T
      requires Returned?
    {
      value
    }
  }

  /**
   * `xs.map((x, i) => f(i, x))` where `f` may throw: the elements are evaluated
   * in order and the first throw ends the map.
   */
  function TryMap<A, B>(xs: seq<A>, f: (nat, A) -> Outcome<B>): (r: Outcome<seq<B>>)
    ensures r.Returned? <==> forall i :: 0 <= i < |xs| ==> f(i, xs[i]).Returned?
    ensures r.Returned? ==> |r.value| == |xs|
    ensures r.Returned? ==> forall i :: 0 <= i < |xs| ==> r.value[i] == f(i, xs[i]).value
    ensures r.Threw? ==> exists i :: 0 <= i < |xs| && f(i, xs[i]) == Threw(r.fault)
                                     && forall j :: 0 <= j < i ==> f(j, xs[j]).Returned?
  {
    if xs == [] then Returned([])
    else
      var init :- TryMap(xs[..|xs| - 1], f);
      var last :- f(|xs| - 1, xs[|xs| - 1]);
      Returned(init + [last])
  }
}
