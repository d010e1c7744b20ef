/** The boundary to the remote code-execution provider. The call itself is
    not modelled: what it settled to is an input of the model. */
module Execution {

  /** The body posted to the provider: one file holding the code, and the
      client's `input` field passed on as `stdin`. */
  datatype ExecRequest = ExecRequest(language: string, version: string, files: seq<string>, stdin: string)

  /** The `run` object of a reply: `output` and every other field, as text. */
  datatype RunInfo = RunInfo(output: string, fields: map<string, string>)

  /** A reply body: the `run` object and every other top-level field. */
  datatype ExecBody = ExecBody(run: RunInfo, fields: map<string, string>)

  /** What the single provider call settled to. `Failure` covers a rejected
      request (network error, timeout, non-success status) and a reply whose
      `run` object is missing, which throws inside the same `try`. */
  datatype Outcome = Success(body: ExecBody) | Failure

  const ErrorOutput: string := "Error executing code"

  /** The reply broadcast in place of a failed call: only `run.output`. */
  const ErrorEnvelope: ExecBody := ExecBody(RunInfo(ErrorOutput, map[]), map[])

  /** The request a `compileCode` event issues. */
  function RequestFor(code: string, language: string, version: string, input: string): ExecRequest
  {
    ExecRequest(language, version, [code], input)
  }

  /** The body broadcast as `codeResponse`: the provider's reply untouched,
      or the error envelope. */
  function Reply(o: Outcome): (b: ExecBody)
    ensures o.Success? ==> b == o.body
    ensures o.Failure? ==> b.run.output == ErrorOutput && b.run.fields == map[] && b.fields == map[]
  {
    if o.Success? then o.body else ErrorEnvelope
  }
}
