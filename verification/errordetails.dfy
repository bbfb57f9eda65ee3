/** An error enriched with where it was raised and with caller-supplied context fields, built by
    chained updates and serialised into a structured-log event. */
module ErrorDetails {
  import opened Wrappers
  import opened Zerolog
  import Strings
  import Format

  /** A non-nil Go error value: its dynamic type name (what `%T` prints) and its `Error()` text. */
  datatype GoError = GoError(typeName: string, text: string)

  /** One contextual key/value pair. */
  datatype Field = Field(key: string, val: string)

  /** What the runtime reports about the caller: file, line and function name. */
  datatype CallSite = CallSite(file: string, line: int, funcName: string)

  /** The error record. `err` is the wrapped error; it is never nil for a record made by
      `NewErrorDetails`, but the zero record has none. */
  datatype Details = Details(
    errorMessage: string,
    errorType: string,
    file: string,
    line: int,
    funcName: string,
    timestamp: Instant,
    context: seq<Field>,
    stackTrace: string,
    err: Option<GoError>)

  /** The part of an error that is shown to clients. */
  datatype ClientError = ClientError(message: string)

  /** Size of the buffer the goroutine dump is copied into. */
  const StackBufferSize: nat := 1024

  /** The first `StackBufferSize` bytes of the dump: what fits in the buffer. */
  function Truncate(dump: string): (kept: string)
    ensures |kept| == if |dump| <= StackBufferSize then |dump| else StackBufferSize
    ensures kept == dump[..|kept|]
  {
    if |dump| <= StackBufferSize then dump else dump[..StackBufferSize]
  }

  /** The stack trace kept in a record: the part of the dump that fits in the buffer, with
      surrounding white space removed. */
  function StackTrace(dump: string): (r: string)
    ensures |r| <= StackBufferSize
    ensures exists a: nat :: Strings.TrimmedAt(Truncate(dump), r, a)
  {
    Strings.TrimSpace(Truncate(dump))
  }

  /** `NewErrorDetails(err)`; the caller's location, the goroutine dump and the clock reading are
      parameters. */
  function NewErrorDetails(err: GoError, caller: CallSite, stackDump: string, now: Instant): (d: Details)
    ensures d.errorMessage == err.text && d.errorType == err.typeName
    ensures d.err == Some(err) && d.context == []
    ensures d.file == caller.file && d.line == caller.line && d.funcName == caller.funcName
    ensures d.timestamp == now && d.stackTrace == StackTrace(stackDump)
  {
    Details(err.text, err.typeName, caller.file, caller.line, caller.funcName, now, [],
            StackTrace(stackDump), Some(err))
  }

  /** `Error()`: the wrapped error's own text (a nil wrapped error would panic). */
  function Error(d: Details): string
    requires d.err.Some?
  {
    d.err.value.text
  }

  /** `Unwrap()`: the wrapped error. */
  function Unwrap(d: Details): Option<GoError>
  {
    d.err
  }

  /** `Str(key, val)`: appends one context field; nothing else changes. */
  function Str(d: Details, key: string, val: string): (r: Details)
    ensures |r.context| == |d.context| + 1
    ensures r.context[..|d.context|] == d.context
    ensures r.context[|d.context|] == Field(key, val)
    ensures r.(context := d.context) == d
  {
    d.(context := d.context + [Field(key, val)])
  }

  /** `Int(key, val)`: appends one context field holding the decimal rendering of `val`, which reads
      back as `val`. */
  function Int(d: Details, key: string, val: int): (r: Details)
    ensures r == Str(d, key, Format.FormatInt(val))
    ensures Format.ParseInt(r.context[|d.context|].val) == Some(val)
  {
    Format.FormatIntRoundTrip(val);
    Str(d, key, Format.FormatInt(val))
  }

  /** `Msg(message)`: replaces the message and nothing else. */
  function Msg(d: Details, message: string): (r: Details)
    ensures r.errorMessage == message
    ensures r.(errorMessage := d.errorMessage) == d
  {
    d.(errorMessage := message)
  }

  /** `ToClientError()`: exposes the current message only. */
  function ToClientError(d: Details): ClientError
  {
    ClientError(d.errorMessage)
  }

  /** The pairs written for the context fields, in insertion order. */
  function ContextPairs(context: seq<Field>): (ps: seq<Pair>)
    ensures |ps| == |context|
    ensures forall i :: 0 <= i < |context| ==> ps[i] == Pair(context[i].key, Zerolog.Str(context[i].val))
  {
    seq(|context|, i requires 0 <= i < |context| => Pair(context[i].key, Zerolog.Str(context[i].val)))
  }

  /** `MarshalZerologObject`: six fixed pairs, then the context fields in insertion order, then the
      wrapped error's text when there is a wrapped error. */
  function MarshalZerologObject(d: Details): (ps: seq<Pair>)
    ensures |ps| == 6 + |d.context| + (if d.err.Some? then 1 else 0)
    ensures ps[0] == Pair("message", Zerolog.Str(d.errorMessage))
    ensures ps[1] == Pair("file", Zerolog.Str(d.file))
    ensures ps[2] == Pair("method", Zerolog.Str(d.funcName))
    ensures ps[3] == Pair("line", Zerolog.Int(d.line))
    ensures ps[4] == Pair("trace", Zerolog.Str(d.stackTrace))
    ensures ps[5] == Pair("error_type", Zerolog.Str(d.errorType))
    ensures forall i :: 0 <= i < |d.context| ==>
              ps[6 + i] == Pair(d.context[i].key, Zerolog.Str(d.context[i].val))
    ensures d.err.Some? ==> ps[|ps| - 1] == Pair("error", Zerolog.Str(d.err.value.text))
  {
    var fixed := [
      Pair("message", Zerolog.Str(d.errorMessage)),
      Pair("file", Zerolog.Str(d.file)),
      Pair("method", Zerolog.Str(d.funcName)),
      Pair("line", Zerolog.Int(d.line)),
      Pair("trace", Zerolog.Str(d.stackTrace)),
      Pair("error_type", Zerolog.Str(d.errorType))];
    var tail := if d.err.Some? then [Pair("error", Zerolog.Str(Error(d)))] else [];
    fixed + ContextPairs(d.context) + tail
  }

  /** `Error()` reports the wrapped error, not the message: neither a new message nor a new context
      field changes it, and it is the text the event's closing `error` pair carries. */
  lemma ErrorReportsWrapped(d: Details, message: string, key: string, val: string)
    requires d.err.Some?
    ensures Error(Msg(d, message)) == Error(d)
    ensures Error(Str(d, key, val)) == Error(d)
    ensures MarshalZerologObject(d)[|MarshalZerologObject(d)| - 1] == Pair("error", Zerolog.Str(Error(d)))
  {
  }

  /** `Unwrap()` hands back the error the record was built from, whatever message or context fields
      were added since; the event has a pair beyond the fixed and context pairs exactly when there
      is an error to unwrap, and that closing pair is `error` with the error's text. */
  lemma UnwrapReturnsWrapped(err: GoError, caller: CallSite, stackDump: string, now: Instant,
                             d: Details, message: string, key: string, val: string)
    ensures Unwrap(NewErrorDetails(err, caller, stackDump, now)) == Some(err)
    ensures Unwrap(Msg(d, message)) == Unwrap(d)
    ensures Unwrap(Str(d, key, val)) == Unwrap(d)
    ensures |MarshalZerologObject(d)| == 6 + |d.context| + (if Unwrap(d).Some? then 1 else 0)
    ensures Unwrap(d).Some? ==>
              MarshalZerologObject(d)[6 + |d.context|] == Pair("error", Zerolog.Str(Unwrap(d).value.text))
  {
  }

  /** The client sees the latest message and nothing else: `Msg` sets what `ToClientError` returns,
      context fields do not change it, and it is the text of the event's `message` pair. */
  lemma ClientErrorShowsMessage(d: Details, message: string, key: string, val: string)
    ensures ToClientError(Msg(d, message)) == ClientError(message)
    ensures ToClientError(Str(d, key, val)) == ToClientError(d)
    ensures MarshalZerologObject(d)[0] == Pair("message", Zerolog.Str(ToClientError(d).message))
  {
  }

  /** A fresh record's message, client message and `Error()` all equal the wrapped error's text. */
  lemma NewErrorDetailsMessages(err: GoError, caller: CallSite, stackDump: string, now: Instant)
    ensures var d := NewErrorDetails(err, caller, stackDump, now);
            Error(d) == d.errorMessage == ToClientError(d).message == err.text && Unwrap(d) == Some(err)
  {
  }

  /** Appending a context field appends its pair: the context is written in insertion order. */
  lemma ContextPairsAppend(context: seq<Field>, f: Field)
    ensures ContextPairs(context + [f]) == ContextPairs(context) + [Pair(f.key, Zerolog.Str(f.val))]
  {
  }

  /** Adding a context field inserts exactly one pair into the event: after the existing context
      pairs and before the error pair. */
  lemma MarshalAfterStr(d: Details, key: string, val: string)
    ensures var ps := MarshalZerologObject(d);
            var n := 6 + |d.context|;
            n <= |ps| &&
            MarshalZerologObject(Str(d, key, val)) == ps[..n] + [Pair(key, Zerolog.Str(val))] + ps[n..]
  {
  }

  /** Replacing the message changes only the first pair of the event. */
  lemma MarshalAfterMsg(d: Details, message: string)
    ensures MarshalZerologObject(Msg(d, message)) ==
            MarshalZerologObject(d)[0 := Pair("message", Zerolog.Str(message))]
  {
  }

  /** Chained `Str` calls record their fields in call order. */
  lemma StrChain(err: GoError, caller: CallSite, stackDump: string, now: Instant)
    ensures var d := NewErrorDetails(err, caller, stackDump, now);
            Str(Str(d, "key1", "value1"), "key2", "value2").context ==
            [Field("key1", "value1"), Field("key2", "value2")]
  {
  }

  /** Chained `Int` calls record decimal renderings in call order. */
  lemma IntChain(err: GoError, caller: CallSite, stackDump: string, now: Instant)
    ensures var d := NewErrorDetails(err, caller, stackDump, now);
            Int(Int(d, "key1", 1), "key2", 2).context == [Field("key1", "1"), Field("key2", "2")]
  {
  }
}
