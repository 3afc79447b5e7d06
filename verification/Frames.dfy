/** The client frames and backend messages that the extended-protocol tracker reacts to. */
module Frames {
  import opened Bytes
  import opened Resolution
  import opened Params

  /** Result format codes of one Bind; `AllText` is the default of a portal with no Bind. */
  datatype ResultFormats = AllText | Codes(codes: seq<int>)

  datatype Target = StatementTarget | PortalTarget

  /** A client frame as the write path has recorded it. All of them are forwarded upstream except
      `RefusedBind`: a Bind that was refused after its portal had been recorded. */
  datatype Frame =
    | Parse(statement: bytes, params: ParamTransforms)
    | Bind(portal: bytes, statement: bytes, formats: ResultFormats)
    | RefusedBind(portal: bytes, statement: bytes, formats: ResultFormats)
    | Describe(target: Target, name: bytes)
    | Execute(portal: bytes)
    | Close(target: Target, name: bytes)
    | Sync
    | Query
    | FunctionCall
    | Flush
    | CopyData
    | CopyDone
    | CopyFail

  /** A backend message. `origin` is the position, in the history of recorded frames, of the frame it
      answers; the proxy never sees it. */
  datatype Message =
    | RowDescription(origin: nat, fields: seq<Field>)
    | NoData(origin: nat)
    | DataRow(origin: nat)
    | Complete(origin: nat)
    | ErrorResponse(origin: nat)
    | ReadyForQuery(origin: nat)
    | CopyInResponse(origin: nat)

  predicate OpensCopyPayload(f: Frame) {
    f.CopyData? || f.CopyDone? || f.CopyFail?
  }

  predicate IsExtended(f: Frame) {
    f.Parse? || f.Bind? || f.Describe? || f.Execute? || f.Close?
  }

  predicate IsBoundary(f: Frame) {
    f.Sync? || f.Query? || f.FunctionCall?
  }

  /** Frames by which the backend comes to know or forget a name. */
  predicate IsNaming(f: Frame) {
    f.Parse? || f.Bind? || f.Close?
  }

  /** Frames that queue an expectation. */
  predicate IsTracked(f: Frame) {
    f.Describe? || f.Execute? || IsBoundary(f)
  }
}
