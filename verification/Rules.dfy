/** Rule records shared by the engine, the SSH layer and the tunnel. */
module Rules {

  /** A rule as the tunnel client and the SSH client hold it. */
  datatype ClientRule = ClientRule(id: string, name: string, listen: string, target: string)

  /** `Unset` is Go's empty status string. */
  datatype Status = Unset | Pending | Running | Stopped | Error

  /** The type is free text; only the value "remote" is ever compared with. */
  datatype Rule = Rule(
    id: string, typ: string, name: string, listen: string, target: string, status: Status, credential: string)

  const REMOTE := "remote"

  predicate IsRemote(r: Rule) {
    r.typ == REMOTE
  }

  /** What a persisted rule keeps: everything but the status. */
  function DropStatus(r: Rule): Rule {
    r.(status := Unset)
  }

  function ForClient(r: Rule): ClientRule {
    ClientRule(r.id, r.name, r.listen, r.target)
  }
}
