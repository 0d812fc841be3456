/** Shared result shapes of the pipeline's agents.

    Every agent returns a dictionary whose "status" is either "success" (with a
    payload under a stage-specific key) or "error" (with the exception text
    under "error"). `Result` is that dictionary, typed. */
module Common {

  /** `{"status": "success", <key>: value}` or `{"status": "error", "error": error}` */
  datatype Result<T> = Ok(value: T) | Err(error: string)

  datatype Option<T> = None | Some(value: T)

  /** One entry of a table schema: `{"name": ..., "type": ...}`. */
  datatype Column = Column(name: string, colType: string)

  /** The names of a schema, in order. */
  function Names(cols: seq<Column>): (r: seq<string>)
    ensures |r| == |cols|
    ensures forall i :: 0 <= i < |cols| ==> r[i] == cols[i].name
  {
    if cols == [] then [] else [cols[0].name] + Names(cols[1..])
  }
}
