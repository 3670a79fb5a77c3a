/**
 * The logging sink seen as an append-only trace of structured records.
 * How a message template is rendered into text is not modelled: a record keeps
 * its level, its template and its positional arguments as given.
 */
module Logging {

  /** The six severities of a structured log event, lowest first. */
  datatype Level = Verbose | Debug | Information | Warning | Error | Fatal

  /** A positional template argument: one string, or an array of strings. */
  datatype Arg = Text(text: string) | TextArray(items: seq<string>)

  datatype Record = Record(level: Level, template: string, args: seq<Arg>)

  type Trace = seq<Record>
}
