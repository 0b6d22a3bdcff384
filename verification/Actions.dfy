/** What a user can answer to a prompt. */
module Actions {

  datatype Action = Deny | Allow | AllowOnce | AllowAlways | DenyAlways

  /** Answers that are meant to last. */
  predicate IsAlways(a: Action) { a.AllowAlways? || a.DenyAlways? }

  datatype Decision = Allowed | Denied

  function ActionToDecision(a: Action): Decision {
    match a
    case Allow | AllowOnce | AllowAlways => Allowed
    case _ => Denied
  }
}
