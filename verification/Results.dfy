/** The stored outcome of one check of one service of one team. */
module Results {
  datatype Status = Pass | Partial | Fail | Timeout

  datatype Result = Result(createdAt: int, team: int, service: int, status: Status, exitCode: int)

  predicate IsPass(r: Result, team: int, service: int) {
    r.team == team && r.service == service && r.status == Pass
  }
}
