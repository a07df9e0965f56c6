/**
 The records the roster and the chat exchange. A spreadsheet row becomes a
 `Candidate` whose recognised fields stay undefined (`None`) when no column
 was mapped to them; columns that match no recognised pattern are kept
 under their own lower-cased header in `extra` (a `notes` column lands
 there as `extra["notes"]`).
 */
module Types {

  datatype Option<T> = None | Some(value: T)

  datatype Candidate = Candidate(
    name: Option<string>,
    phone: Option<string>,
    status: Option<string>,
    interviewDate: Option<string>,
    position: Option<string>,
    extra: map<string, string>)

  const EmptyCandidate := Candidate(None, None, None, None, None, map[])

  datatype Role = User | Model

  /** A chat message; its timestamp is not modelled. */
  datatype Message = Message(role: Role, text: string)
}
