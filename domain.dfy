/** The records exchanged between the pages and the backend: a code
    reference attached to an answer, a persisted question/answer turn, and
    one entry of the live conversation. */
module Domain {
  import opened Js

  /** A code reference as the backend sends it. `lineStart`, `lineEnd` and
      `fullFileUrl` may be missing (None). */
  datatype Reference = Reference(
    filePath: string,
    lineStart: Option<int>,
    lineEnd: Option<int>,
    code: string,
    fullFileUrl: Option<string>)

  /** One element of `data.history`. `references` may be missing; the
      timestamp is a time in milliseconds. */
  datatype HistoryEntry = HistoryEntry(
    question: string,
    answer: string,
    references: Option<seq<Reference>>,
    timestamp: int)

  /** One conversation message, dispatched on its `role`. `answeredAt` is
      the client clock when a live answer arrived; a message rebuilt from
      history carries none. */
  datatype Message =
    | User(content: string)
    | Assistant(content: string, references: seq<Reference>, answeredAt: Option<int>)
    | Error(content: string)
}
