/**
 * The user-input errors of the command line. Each one is reported once by
 * `on_error` (or escapes as an exception) and ends the process with a
 * non-zero status, so the model carries them as the error side of a Result.
 */
module Failures {

  datatype Error =
    | MissingPath                     // read_resource: "missing path or URL"
    | Unreadable(path: string)        // read_resource: "unable to read <path>"
    | ConflictingRange                // _line_range: "cannot specify both head and tail"
    | InvalidPadding                  // "padding should be 1, 2 or 4 integers separated by commas"
    | MarkupParse                     // "unable to parse console markup"
    | RuleStyleParse                  // "unable to parse rule style"
    | JsonParse                       // "unable to read json"
    | EvalFailed(expression: string)  // "unable to eval <resource>"
    | PanelStyleParse                 // "unable to parse panel style"
    | StyleParse                      // "unable to parse style"
    | DelimiterDetection(message: string)  // render_csv: the sniffer's own message
    | MissingHeaderRow                // render_csv: next(rows) on an empty reader raises StopIteration
    | CsvReadFailed(message: string)  // render_csv: csv.Error from the reader, uncaught
    | PrintFailed                     // "failed to print resource"
}
